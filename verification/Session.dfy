/** One live session: the drain queue, the table of parked requests and the merged log, each behind its
    own lock; the machine whose steps are its lock regions, and the object that takes them. */
module Session {
  import opened Text
  import opened MergedLog

  datatype HostRequest = HostRequest(requestId: nat, body: string)

  datatype ResponseBody = Approved(approved: bool, allowPermanent: bool, reason: Option<string>) | Other(text: string)

  datatype HostResponse = HostResponse(requestId: nat, body: ResponseBody)

  /** What the host can poll. */
  datatype Item = EventItem(event: string) | RequestItem(request: HostRequest)

  datatype Payload =
    | Event(event: string) | Request(request: HostRequest) | Response(response: HostResponse)
    | Said(text: string)

  type Entry = LogEntry<Payload>

  /** What a request gets when its sender is dropped. */
  function Denial(id: nat): HostResponse {
    HostResponse(id, Approved(false, false, None))
  }

  /** How many queued items a poll takes. */
  function Take(max: nat, queued: nat): nat {
    if max == 0 || queued < max then queued else max
  }

  datatype Pump = Idle | Logged(event: string)

  /** How far a parking handler has come. */
  datatype Stage = Begun | Parked | Recorded | Waiting | Done(response: HostResponse)

  /** The one-shot channel a handler waits on. */
  datatype Channel = Open | Answered(response: HostResponse) | Dropped

  datatype Handler = Handler(request: HostRequest, stage: Stage, channel: Channel)

  /** How far a call to `respond` has come; from `Took` on it holds the sender of one handler. */
  datatype Progress = Called | Took(task: nat) | Noted(task: nat) | Sent(task: nat) | Refused

  datatype Responder = Responder(response: HostResponse, progress: Progress)

  /** The shared state, the tasks, and everything ever queued and ever polled. */
  datatype State = State(log: seq<Entry>, drain: seq<Item>, pending: map<nat, nat>, pump: Pump,
                         handlers: seq<Handler>, responders: seq<Responder>, queued: seq<Item>, polled: seq<Item>)

  const START := State([], [], map[], Idle, [], [], [], [])

  datatype Step =
    | PumpLog(event: string) | PumpQueue
    | Arrive(request: HostRequest) | Park(h: nat) | Record(h: nat) | Queue(h: nat) | Receive(h: nat)
    | Respond(response: HostResponse) | TakeSender(r: nat) | Note(r: nat) | Send(r: nat)
    | Poll(max: nat)
    | Say(origin: Origin, disposition: Disposition, text: string)

  function Enqueue(s: State, item: Item): State {
    s.(drain := s.drain + [item], queued := s.queued + [item])
  }

  function SetHandler(s: State, h: nat, x: Handler): State
    requires h < |s.handlers|
  {
    s.(handlers := s.handlers[h := x])
  }

  function SetProgress(s: State, r: nat, p: Progress): State
    requires r < |s.responders|
  {
    s.(responders := s.responders[r := s.responders[r].(progress := p)])
  }

  /** Park handler `h`; the handler it displaces finds its channel dropped. */
  function ParkHandler(s: State, h: nat): State
    requires h < |s.handlers|
  {
    var id := s.handlers[h].request.requestId;
    var displaced := if id in s.pending && s.pending[id] < |s.handlers| && s.pending[id] != h
                     then SetHandler(s, s.pending[id], s.handlers[s.pending[id]].(channel := Dropped)) else s;
    SetHandler(displaced, h, s.handlers[h].(stage := Parked)).(pending := s.pending[id := h])
  }

  /** One lock region of one task; `None` when that task is elsewhere. */
  function Next(s: State, step: Step): Option<State> {
    match step
    case PumpLog(ev) =>
      if s.pump != Idle then None
      else Some(s.(pump := Logged(ev), log := Appended(s.log, Outbound, Engine, Context, Event(ev))))
    case PumpQueue =>
      if s.pump == Idle then None else Some(Enqueue(s.(pump := Idle), EventItem(s.pump.event)))
    case Arrive(req) => Some(s.(handlers := s.handlers + [Handler(req, Begun, Open)]))
    case Park(h) =>
      if h >= |s.handlers| || s.handlers[h].stage != Begun then None else Some(ParkHandler(s, h))
    case Record(h) =>
      if h >= |s.handlers| || s.handlers[h].stage != Parked then None
      else
        var log := Appended(s.log, Outbound, Engine, Context, Request(s.handlers[h].request));
        Some(SetHandler(s, h, s.handlers[h].(stage := Recorded)).(log := log))
    case Queue(h) =>
      if h >= |s.handlers| || s.handlers[h].stage != Recorded then None
      else Some(Enqueue(SetHandler(s, h, s.handlers[h].(stage := Waiting)), RequestItem(s.handlers[h].request)))
    case Receive(h) =>
      if h >= |s.handlers| || s.handlers[h].stage != Waiting || s.handlers[h].channel == Open then None
      else
        var got := if s.handlers[h].channel == Dropped then Denial(s.handlers[h].request.requestId)
          else s.handlers[h].channel.response;
        Some(SetHandler(s, h, s.handlers[h].(stage := Done(got))))
    case Respond(resp) => Some(s.(responders := s.responders + [Responder(resp, Called)]))
    case TakeSender(r) =>
      if r >= |s.responders| || s.responders[r].progress != Called then None
      else
        var id := s.responders[r].response.requestId;
        if id in s.pending then Some(SetProgress(s, r, Took(s.pending[id])).(pending := s.pending - {id}))
        else Some(SetProgress(s, r, Refused))
    case Note(r) =>
      if r >= |s.responders| || !s.responders[r].progress.Took? then None
      else
        var log := Appended(s.log, Inbound, Ffi, Context, Response(s.responders[r].response));
        Some(SetProgress(s, r, Noted(s.responders[r].progress.task)).(log := log))
    case Send(r) =>
      if r >= |s.responders| || !s.responders[r].progress.Noted?
        || s.responders[r].progress.task >= |s.handlers| then None
      else
        var h := s.responders[r].progress.task;
        Some(SetHandler(SetProgress(s, r, Sent(h)), h, s.handlers[h].(channel := Answered(s.responders[r].response))))
    case Poll(max) =>
      var take := Take(max, |s.drain|);
      Some(s.(drain := s.drain[take..], polled := s.polled + s.drain[..take]))
    case Say(origin, disposition, text) =>
      Some(s.(log := Appended(s.log, Inbound, origin, disposition, Said(text))))
  }

  /** The state after a sequence of steps, if all of them were possible. */
  function Run(steps: seq<Step>): Option<State> {
    if steps == [] then Some(START)
    else
      match Run(steps[..|steps| - 1])
      case None => None
      case Some(s) => Next(s, steps[|steps| - 1])
  }

  lemma OneMore(steps: seq<Step>, s: State, step: Step, t: State)
    requires Run(steps) == Some(s) && Next(s, step) == Some(t)
    ensures Run(steps + [step]) == Some(t)
  {
    assert (steps + [step])[..|steps|] == steps;
  }

  /** The session object: the log, the queue and the table are its own; how far the tasks have come, and
      what was ever queued and polled, is kept beside them. Each method is one lock region, or a local
      step of a task, and one step of the machine above. */
  class Live {
    const log: Merged<Payload>
    var drain: seq<Item>
    var pending: map<nat, nat>
    ghost var pump: Pump
    ghost var handlers: seq<Handler>
    ghost var responders: seq<Responder>
    ghost var queued: seq<Item>
    ghost var polled: seq<Item>
    ghost var steps: seq<Step>

    /** The object is where the steps taken so far lead the machine. */
    ghost predicate Valid()
      reads this, log, log.ring
    {
      log.Valid() && Run(steps) == Some(Snapshot())
    }

    ghost function Snapshot(): State
      reads this, log, log.ring
    {
      State(log.Entries(), drain, pending, pump, handlers, responders, queued, polled)
    }

    constructor ()
      ensures Valid() && fresh(log) && fresh(log.ring) && steps == []
    {
      log := new Merged();
      drain, pending := [], map[];
      pump, handlers, responders, queued, polled, steps := Idle, [], [], [], [], [];
    }

    /** What a task does on its own: a call begins, a channel carries a response. */
    ghost method Local(step: Step)
      requires Valid() && (step.Arrive? || step.Respond? || step.Send? || step.Receive?) && Next(Snapshot(), step).Some?
      modifies this
      ensures Valid() && steps == old(steps) + [step]
    {
      var before, next := Snapshot(), Next(Snapshot(), step).value;
      handlers, responders := next.handlers, next.responders;
      OneMore(steps, before, step, Snapshot());
      steps := steps + [step];
    }

    method PumpLog(event: string)
      requires Valid() && pump == Idle
      modifies this, log.ring
      ensures Valid() && steps == old(steps) + [Step.PumpLog(event)]
    {
      ghost var before := Snapshot();
      log.Append(Outbound, Engine, Context, Event(event));
      pump := Logged(event);
      OneMore(steps, before, Step.PumpLog(event), Snapshot());
      steps := steps + [Step.PumpLog(event)];
    }

    method PumpQueue(event: string)
      requires Valid() && pump == Logged(event)
      modifies this
      ensures Valid() && steps == old(steps) + [Step.PumpQueue]
    {
      ghost var before := Snapshot();
      drain := drain + [EventItem(event)];
      pump, queued := Idle, queued + [EventItem(event)];
      OneMore(steps, before, Step.PumpQueue, Snapshot());
      steps := steps + [Step.PumpQueue];
    }

    /** Park handler `h` under its id; one parked there before loses its sender. */
    method Park(h: nat, request: HostRequest)
      requires Valid() && h < |handlers| && handlers[h].request == request && handlers[h].stage == Begun
      modifies this
      ensures Valid() && steps == old(steps) + [Step.Park(h)]
    {
      ghost var before := Snapshot();
      ghost var next := ParkHandler(Snapshot(), h);
      pending := pending[request.requestId := h];
      handlers := next.handlers;
      OneMore(steps, before, Step.Park(h), Snapshot());
      steps := steps + [Step.Park(h)];
    }

    method Record(ghost h: nat, request: HostRequest)
      requires Valid() && h < |handlers| && handlers[h].request == request && handlers[h].stage == Parked
      modifies this, log.ring
      ensures Valid() && steps == old(steps) + [Step.Record(h)]
    {
      ghost var before := Snapshot();
      log.Append(Outbound, Engine, Context, Request(request));
      handlers := handlers[h := handlers[h].(stage := Recorded)];
      OneMore(steps, before, Step.Record(h), Snapshot());
      steps := steps + [Step.Record(h)];
    }

    method Queue(ghost h: nat, request: HostRequest)
      requires Valid() && h < |handlers| && handlers[h].request == request && handlers[h].stage == Recorded
      modifies this
      ensures Valid() && steps == old(steps) + [Step.Queue(h)]
    {
      ghost var before := Snapshot();
      drain := drain + [RequestItem(request)];
      handlers, queued := handlers[h := handlers[h].(stage := Waiting)], queued + [RequestItem(request)];
      OneMore(steps, before, Step.Queue(h), Snapshot());
      steps := steps + [Step.Queue(h)];
    }

    /** Take the sender parked under the id of a response; without one the call is refused. */
    method TakeSender(ghost r: nat, response: HostResponse) returns (task: Option<nat>)
      requires Valid() && r < |responders| && responders[r] == Responder(response, Called)
      modifies this
      ensures Valid() && steps == old(steps) + [Step.TakeSender(r)]
      ensures task.None? <==> responders[r].progress == Refused
      ensures task.Some? ==> responders[r].progress == Took(task.value)
    {
      ghost var before := Snapshot();
      if response.requestId in pending {
        task := Some(pending[response.requestId]);
        pending := pending - {response.requestId};
        responders := responders[r := Responder(response, Took(task.value))];
      } else {
        task := None;
        responders := responders[r := Responder(response, Refused)];
      }
      OneMore(steps, before, Step.TakeSender(r), Snapshot());
      steps := steps + [Step.TakeSender(r)];
    }

    method Note(ghost r: nat, response: HostResponse)
      requires Valid() && r < |responders| && responders[r].response == response && responders[r].progress.Took?
      modifies this, log.ring
      ensures Valid() && steps == old(steps) + [Step.Note(r)]
    {
      ghost var before := Snapshot();
      log.Append(Inbound, Ffi, Context, Response(response));
      responders := responders[r := Responder(response, Noted(responders[r].progress.task))];
      OneMore(steps, before, Step.Note(r), Snapshot());
      steps := steps + [Step.Note(r)];
    }

    /** Remove and return the oldest items. */
    method Poll(max: nat) returns (items: seq<Item>)
      requires Valid()
      modifies this
      ensures Valid() && steps == old(steps) + [Step.Poll(max)]
      ensures items + drain == old(drain) && (max == 0 ==> drain == [])
      ensures max > 0 ==> |items| <= max && (|items| < max ==> drain == [])
    {
      ghost var before := Snapshot();
      var take := if max == 0 then |drain| else if max < |drain| then max else |drain|;
      items, drain := drain[..take], drain[take..];
      polled := polled + items;
      OneMore(steps, before, Step.Poll(max), Snapshot());
      steps := steps + [Step.Poll(max)];
    }

    method Say(origin: Origin, disposition: Disposition, text: string)
      requires Valid()
      modifies this`steps, log.ring
      ensures Valid() && steps == old(steps) + [Step.Say(origin, disposition, text)]
    {
      ghost var before := Snapshot();
      log.Append(Inbound, origin, disposition, Said(text));
      OneMore(steps, before, Step.Say(origin, disposition, text), Snapshot());
      steps := steps + [Step.Say(origin, disposition, text)];
    }
  }
}
