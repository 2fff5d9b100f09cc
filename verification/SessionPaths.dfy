/** What the calls into a session achieve, from any state it can be in, when their steps are taken. */
module SessionPaths {
  import opened Text
  import opened MergedLog
  import opened Session
  import opened SessionReplies

  /** The steps can be taken after those before, and lead here. */
  ghost predicate Leads(steps: seq<Step>, s: State) {
    Run(steps) == Some(s)
  }

  lemma Then(steps: seq<Step>, s: State, step: Step, s': State)
    requires Leads(steps, s) && Next(s, step) == Some(s')
    ensures Leads(steps + [step], s')
  {
    OneMore(steps, s, step, s');
  }

  /** A request that arrives and takes its three steps is on the log, at the end of the queue, and in the table
      under its id. */
  lemma RequestIsAsked(steps: seq<Step>, s: State, h: nat) returns (t: State)
    requires Leads(steps, s) && h < |s.handlers| && s.handlers[h].stage == Begun
    ensures Leads(steps + [Park(h)] + [Record(h)] + [Queue(h)], t)
    ensures var request := s.handlers[h].request;
      && t.log == s.log + [LogEntry(|s.log| + 1, Outbound, Engine, Context, Request(request))]
      && t.drain == s.drain + [RequestItem(request)] && t.pending == s.pending[request.requestId := h]
      && h < |t.handlers| && t.handlers[h] == Handler(request, Waiting, Open)
  {
    RunInv(steps);
    assert HandlerOk(s, h);
    var s1 := Next(s, Park(h)).value;
    var s2 := Next(s1, Record(h)).value;
    t := Next(s2, Queue(h)).value;
    Then(steps, s, Park(h), s1);
    Then(steps + [Park(h)], s1, Record(h), s2);
    Then(steps + [Park(h)] + [Record(h)], s2, Queue(h), t);
  }

  /** A response to a request in the table takes it out, is logged, and is what the request returns. */
  lemma AnswerArrives(steps: seq<Step>, s: State, h: nat, response: HostResponse, r: nat) returns (t: State)
    requires Leads(steps, s) && h < |s.handlers| && s.handlers[h].stage == Waiting && r == |s.responders|
    requires response.requestId in s.pending && s.pending[response.requestId] == h
    ensures Leads(steps + [Respond(response)] + [TakeSender(r)] + [Note(r)] + [Send(r)] + [Receive(h)], t)
    ensures t.log == s.log + [LogEntry(|s.log| + 1, Inbound, Ffi, Context, Response(response))]
    ensures t.pending == s.pending - {response.requestId} && t.drain == s.drain
    ensures h < |t.handlers| && t.handlers[h].stage == Done(response)
  {
    var s1 := Next(s, Respond(response)).value;
    var s2 := Next(s1, TakeSender(r)).value;
    var s3 := Next(s2, Note(r)).value;
    var s4 := Next(s3, Send(r)).value;
    t := Next(s4, Receive(h)).value;
    Then(steps, s, Respond(response), s1);
    Then(steps + [Respond(response)], s1, TakeSender(r), s2);
    Then(steps + [Respond(response)] + [TakeSender(r)], s2, Note(r), s3);
    Then(steps + [Respond(response)] + [TakeSender(r)] + [Note(r)], s3, Send(r), s4);
    Then(steps + [Respond(response)] + [TakeSender(r)] + [Note(r)] + [Send(r)], s4, Receive(h), t);
  }

  /** A response to an id that is not in the table is refused; nothing else changes, and it never gets further. */
  lemma UnknownIsRefused(steps: seq<Step>, s: State, response: HostResponse, r: nat) returns (t: State)
    requires Leads(steps, s) && response.requestId !in s.pending && r == |s.responders|
    ensures Leads(steps + [Respond(response)] + [TakeSender(r)], t)
    ensures t == s.(responders := s.responders + [Responder(response, Refused)])
    ensures Next(t, TakeSender(r)).None? && Next(t, Note(r)).None? && Next(t, Send(r)).None?
  {
    var s1 := Next(s, Respond(response)).value;
    t := Next(s1, TakeSender(r)).value;
    Then(steps, s, Respond(response), s1);
    Then(steps + [Respond(response)], s1, TakeSender(r), t);
  }

  /** An event the pump receives is logged and then queued. */
  lemma EventIsPumped(steps: seq<Step>, s: State, event: string) returns (t: State)
    requires Leads(steps, s) && s.pump == Idle
    ensures Leads(steps + [PumpLog(event)] + [PumpQueue], t) && t.pump == Idle
    ensures t.log == s.log + [LogEntry(|s.log| + 1, Outbound, Engine, Context, Event(event))]
    ensures t.drain == s.drain + [EventItem(event)] && t.pending == s.pending && t.handlers == s.handlers
  {
    var s1 := Next(s, PumpLog(event)).value;
    t := Next(s1, PumpQueue).value;
    Then(steps, s, PumpLog(event), s1);
    Then(steps + [PumpLog(event)], s1, PumpQueue, t);
  }

  // ---- What the log says ----

  /** Events and requests go out from the engine, responses come in through the interface, and what else is
      said comes in. */
  predicate Labelled(e: Entry) {
    match e.payload
    case Event(_) => e.direction == Outbound && e.origin == Engine && e.disposition == Context
    case Request(_) => e.direction == Outbound && e.origin == Engine && e.disposition == Context
    case Response(_) => e.direction == Inbound && e.origin == Ffi && e.disposition == Context
    case Said(_) => e.direction == Inbound
  }

  /** In every run every entry of the log says truly where it came from. */
  lemma {:induction false} LogIsLabelled(steps: seq<Step>)
    requires Run(steps).Some?
    ensures forall i :: 0 <= i < |Run(steps).value.log| ==> Labelled(Run(steps).value.log[i])
  {
    if steps != [] {
      LogIsLabelled(steps[..|steps| - 1]);
      StepLabels(Run(steps[..|steps| - 1]).value, steps[|steps| - 1], Run(steps).value);
    }
  }

  lemma StepLabels(s: State, step: Step, t: State)
    requires Next(s, step) == Some(t)
    ensures t.log == s.log || (|t.log| == |s.log| + 1 && t.log[..|s.log|] == s.log && Labelled(t.log[|s.log|]))
  {}

  /** What is said is logged as said. */
  lemma SaidIsLogged(steps: seq<Step>, s: State, origin: Origin, disposition: Disposition, text: string)
      returns (t: State)
    requires Leads(steps, s)
    ensures Leads(steps + [Say(origin, disposition, text)], t)
    ensures t == s.(log := s.log + [LogEntry(|s.log| + 1, Inbound, origin, disposition, Said(text))])
  {
    t := Next(s, Say(origin, disposition, text)).value;
    Then(steps, s, Say(origin, disposition, text), t);
  }
}
