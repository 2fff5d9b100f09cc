/** Every interleaving of the event pump, the parking handlers, the responders and the pollers of one
    session: between the lock regions of a task, anything may happen. */
module SessionRuns {
  import opened Text
  import opened MergedLog
  import opened Session
  import opened Bags

  // ---- Conservation ----

  /** The item a log entry sends out. */
  function Sends(e: Entry): multiset<Item> {
    match e.payload
    case Event(ev) => multiset{EventItem(ev)}
    case Request(req) => multiset{RequestItem(req)}
    case Response(_) => multiset{}
    case Said(_) => multiset{}
  }

  function Outgoing(log: seq<Entry>): multiset<Item> {
    Sum(log, Sends)
  }

  /** The item of a handler between its log append and its queue push. */
  function HeldBy(h: Handler): multiset<Item> {
    if h.stage == Recorded then multiset{RequestItem(h.request)} else multiset{}
  }

  function HeldByPump(p: Pump): multiset<Item> {
    if p == Idle then multiset{} else multiset{EventItem(p.event)}
  }

  /** The log has sent out exactly what was queued plus what its sender has not queued yet. */
  ghost predicate Balanced(s: State) {
    Adds(Outgoing(s.log), s.queued, Sum(s.handlers, HeldBy), HeldByPump(s.pump))
  }

  lemma ParkHolds(s: State, h: nat)
    requires h < |s.handlers| && s.handlers[h].stage == Begun
    ensures Sum(ParkHandler(s, h).handlers, HeldBy) == Sum(s.handlers, HeldBy)
  {
    var id := s.handlers[h].request.requestId;
    if id in s.pending && s.pending[id] < |s.handlers| && s.pending[id] != h {
      var p := s.pending[id];
      SumSame(s.handlers, p, s.handlers[p].(channel := Dropped), HeldBy);
      SumSame(s.handlers[p := s.handlers[p].(channel := Dropped)], h, s.handlers[h].(stage := Parked), HeldBy);
    } else {
      SumSame(s.handlers, h, s.handlers[h].(stage := Parked), HeldBy);
    }
  }

  /** A step that changes neither what the log sent out nor what anyone holds or queued. */
  ghost predicate Neutral(s: State, s': State) {
    && Outgoing(s'.log) == Outgoing(s.log) && s'.queued == s.queued && s'.pump == s.pump
    && Sum(s'.handlers, HeldBy) == Sum(s.handlers, HeldBy)
  }

  lemma NeutralBalances(s: State, s': State)
    requires Balanced(s) && Neutral(s, s')
    ensures Balanced(s')
  {}

  lemma RecordBalances(s: State, h: nat, s': State)
    requires Balanced(s) && Next(s, Record(h)) == Some(s')
    ensures Balanced(s')
  {
    var req := s.handlers[h].request;
    SumSnoc(s.log, s'.log[|s.log|], Sends);
    SumGain(s.handlers, h, s'.handlers[h], HeldBy);
    SplitGain(Outgoing(s.log), s.queued, Sum(s.handlers, HeldBy), HeldByPump(s.pump), multiset{RequestItem(req)});
  }

  lemma PumpLogBalances(s: State, ev: string, s': State)
    requires Balanced(s) && Next(s, PumpLog(ev)) == Some(s')
    ensures Balanced(s')
  {
    SumSnoc(s.log, s'.log[|s.log|], Sends);
    SplitGain(Outgoing(s.log), s.queued, Sum(s.handlers, HeldBy), HeldByPump(s.pump), multiset{EventItem(ev)});
    assert multiset{} + multiset{EventItem(ev)} == HeldByPump(s'.pump);
  }

  lemma QueueBalances(s: State, h: nat, s': State)
    requires Balanced(s) && Next(s, Queue(h)) == Some(s')
    ensures Balanced(s')
  {
    SumRelease(s.handlers, h, s'.handlers[h], HeldBy);
    SplitDone(Outgoing(s.log), s.queued, Sum(s'.handlers, HeldBy), HeldByPump(s.pump),
      RequestItem(s.handlers[h].request));
  }

  lemma PumpQueueBalances(s: State, s': State)
    requires Balanced(s) && Next(s, PumpQueue) == Some(s')
    ensures Balanced(s')
  {
    assert HeldByPump(s'.pump) + multiset{EventItem(s.pump.event)} == HeldByPump(s.pump);
    SplitDone(Outgoing(s.log), s.queued, Sum(s.handlers, HeldBy), HeldByPump(s'.pump), EventItem(s.pump.event));
  }

  lemma ArriveHolds(s: State, req: HostRequest)
    ensures Sum(s.handlers + [Handler(req, Begun, Open)], HeldBy) == Sum(s.handlers, HeldBy)
  {
    SumSnoc(s.handlers, Handler(req, Begun, Open), HeldBy);
  }

  lemma SendHolds(s: State, r: nat, s': State)
    requires Next(s, Send(r)) == Some(s')
    ensures Sum(s'.handlers, HeldBy) == Sum(s.handlers, HeldBy)
  {
    var h := s.responders[r].progress.task;
    SumSame(s.handlers, h, s.handlers[h].(channel := Answered(s.responders[r].response)), HeldBy);
  }

  lemma ReceiveHolds(s: State, h: nat, s': State)
    requires Next(s, Receive(h)) == Some(s')
    ensures Sum(s'.handlers, HeldBy) == Sum(s.handlers, HeldBy)
  {
    SumSame(s.handlers, h, s'.handlers[h], HeldBy);
  }

  lemma StepBalances(s: State, step: Step)
    requires Balanced(s) && Next(s, step).Some?
    ensures Balanced(Next(s, step).value)
  {
    var s' := Next(s, step).value;
    match step
    case PumpLog(ev) => PumpLogBalances(s, ev, s');
    case PumpQueue => PumpQueueBalances(s, s');
    case Record(h) => RecordBalances(s, h, s');
    case Queue(h) => QueueBalances(s, h, s');
    case _ =>
      StepIsNeutral(s, step);
      NeutralBalances(s, s');
  }

  lemma StepIsNeutral(s: State, step: Step)
    requires Next(s, step).Some? && !step.PumpLog? && !step.PumpQueue? && !step.Record? && !step.Queue?
    ensures Neutral(s, Next(s, step).value)
  {
    StepHolds(s, step);
    StepSendsNothing(s, step, Next(s, step).value);
  }

  lemma StepSendsNothing(s: State, step: Step, s': State)
    requires Next(s, step) == Some(s') && !step.PumpLog? && !step.PumpQueue? && !step.Record? && !step.Queue?
    ensures Outgoing(s'.log) == Outgoing(s.log) && s'.queued == s.queued && s'.pump == s.pump
  {
    match step
    case Note(r) => NoteSendsNothing(s, r, s');
    case Say(origin, disposition, text) =>
      SumSnocEmpty(s.log, LogEntry(|s.log| + 1, Inbound, origin, disposition, Said(text)), Sends);
    case _ =>
  }

  lemma NoteSendsNothing(s: State, r: nat, s': State)
    requires Next(s, Note(r)) == Some(s')
    ensures Outgoing(s'.log) == Outgoing(s.log)
  {
    SumSnocEmpty(s.log, LogEntry(|s.log| + 1, Inbound, Ffi, Context, Response(s.responders[r].response)), Sends);
  }

  lemma StepHolds(s: State, step: Step)
    requires Next(s, step).Some? && !step.Record? && !step.Queue?
    ensures Sum(Next(s, step).value.handlers, HeldBy) == Sum(s.handlers, HeldBy)
  {
    var s' := Next(s, step).value;
    match step
    case Arrive(req) => ArriveHolds(s, req);
    case Park(h) => ParkHolds(s, h);
    case Receive(h) => ReceiveHolds(s, h, s');
    case Send(r) => SendHolds(s, r, s');
    case _ =>
  }

  ghost predicate Conserved(s: State) {
    s.polled + s.drain == s.queued && Balanced(s) && Stamped(s.log)
  }

  /** In every interleaving, what was polled followed by what is queued is what was ever queued, in
      order; the log has sent out exactly that plus what sits between its log append and its push; and
      the log is stamped 1, 2, 3 and so on. */
  lemma {:induction false} NothingIsLostOrDoubled(steps: seq<Step>)
    requires Run(steps).Some?
    ensures Conserved(Run(steps).value)
  {
    if steps != [] {
      var s, step := Run(steps[..|steps| - 1]).value, steps[|steps| - 1];
      NothingIsLostOrDoubled(steps[..|steps| - 1]);
      StepBalances(s, step);
      StepKeepsOrder(s, step);
    }
  }

  lemma StepKeepsOrder(s: State, step: Step)
    requires s.polled + s.drain == s.queued && Stamped(s.log) && Next(s, step).Some?
    ensures var s' := Next(s, step).value; s'.polled + s'.drain == s'.queued && Stamped(s'.log)
  {
    if step.Poll? {
      var take := Take(step.max, |s.drain|);
      assert s.drain == s.drain[..take] + s.drain[take..];
    }
  }

  /** In every run a poll of everything leaves nothing queued: all that was ever queued has been polled. A
      poll of at most `max` items takes the oldest, and fewer than that only when nothing is left. */
  lemma PollDelivers(steps: seq<Step>, max: nat)
    requires Run(steps).Some?
    ensures Run(steps + [Poll(max)]).Some?
    ensures var s, s' := Run(steps).value, Run(steps + [Poll(max)]).value;
      && s.polled <= s'.polled <= s'.queued == s.queued && s'.polled + s'.drain == s'.queued
      && (max == 0 ==> s'.polled == s'.queued && s'.drain == [])
      && (max > 0 ==> |s'.polled| <= |s.polled| + max)
      && (|s'.polled| < |s.polled| + max ==> s'.polled == s'.queued && s'.drain == [])
  {
    var s := Run(steps).value;
    OneMore(steps, s, Poll(max), Next(s, Poll(max)).value);
    NothingIsLostOrDoubled(steps + [Poll(max)]);
  }

  /** Whatever has been done to a session object, it has lost and doubled nothing. */
  lemma LiveConserves(live: Live)
    requires live.Valid()
    ensures live.polled + live.drain == live.queued && Stamped(live.log.Entries()) && Balanced(live.Snapshot())
  {
    NothingIsLostOrDoubled(live.steps);
  }
}
