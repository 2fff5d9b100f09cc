/** When a logged response is sure to follow a logged request with its id, over every interleaving. */
module ResponseOrder {
  import opened Text
  import opened MergedLog
  import opened Session
  import opened SessionRuns

  ghost predicate AskedBefore(log: seq<Entry>, upTo: nat, id: nat) {
    exists j :: 0 <= j < upTo && j < |log| && log[j].payload.Request? && log[j].payload.request.requestId == id
  }

  /** A request with this id is on the log. */
  ghost predicate Asked(log: seq<Entry>, id: nat) {
    AskedBefore(log, |log|, id)
  }

  /** Every logged response follows a logged request with its id. */
  ghost predicate InOrder(log: seq<Entry>) {
    forall i :: 0 <= i < |log| && log[i].payload.Response? ==> AskedBefore(log, i, log[i].payload.response.requestId)
  }

  /** ... and so it stays: whatever may still be answered has been asked. */
  ghost predicate InTurn(s: State) {
    && (forall h :: 0 <= h < |s.handlers| && (s.handlers[h].stage == Recorded || s.handlers[h].stage == Waiting) ==>
      Asked(s.log, s.handlers[h].request.requestId))
    && (forall k :: 0 <= k < |s.queued| && s.queued[k].RequestItem? ==> Asked(s.log, s.queued[k].request.requestId))
    && (forall r :: 0 <= r < |s.responders| ==> Asked(s.log, s.responders[r].response.requestId))
    && InOrder(s.log)
  }

  lemma StillAsked(log: seq<Entry>, log': seq<Entry>, upTo: nat, upTo': nat, id: nat)
    requires AskedBefore(log, upTo, id) && log <= log' && upTo <= upTo'
    ensures AskedBefore(log', upTo', id)
  {
    var j :| 0 <= j < upTo && j < |log| && log[j].payload.Request? && log[j].payload.request.requestId == id;
    assert log'[j] == log[j];
  }

  lemma LogGrows(s: State, step: Step)
    requires Next(s, step).Some?
    ensures s.log <= Next(s, step).value.log
    ensures forall id :: Asked(s.log, id) ==> Asked(Next(s, step).value.log, id)
  {
    var log' := Next(s, step).value.log;
    forall id | Asked(s.log, id) ensures Asked(log', id) { StillAsked(s.log, log', |s.log|, |log'|, id); }
  }

  lemma StepInTurn(s: State, step: Step)
    requires InTurn(s) && Next(s, step).Some? && (step.Respond? ==> Asked(s.log, step.response.requestId))
    ensures InTurn(Next(s, step).value)
  {
    var s' := Next(s, step).value;
    LogGrows(s, step);
    if step.Record? {
      assert s'.log[|s.log|].payload.request.requestId == s.handlers[step.h].request.requestId;
      assert Asked(s'.log, s.handlers[step.h].request.requestId);
    }
    StepInOrder(s, step);
  }

  lemma StepInOrder(s: State, step: Step)
    requires InTurn(s) && Next(s, step).Some?
    ensures InOrder(Next(s, step).value.log)
  {
    var s' := Next(s, step).value;
    LogGrows(s, step);
    forall i | 0 <= i < |s'.log| && s'.log[i].payload.Response?
      ensures AskedBefore(s'.log, i, s'.log[i].payload.response.requestId)
    {
      if i < |s.log| {
        assert s'.log[i] == s.log[i];
        StillAsked(s.log, s'.log, i, i, s.log[i].payload.response.requestId);
      } else {
        StillAsked(s.log, s'.log, |s.log|, i, s'.log[i].payload.response.requestId);
      }
    }
  }

  /** The host answers only ids whose request is on the log then, however it came to know them. */
  ghost predicate Careful(steps: seq<Step>) {
    steps == [] ||
      var front, step := steps[..|steps| - 1], steps[|steps| - 1];
      Careful(front) && (step.Respond? && Run(front).Some? ==> Asked(Run(front).value.log, step.response.requestId))
  }

  lemma {:induction false} ResponsesFollowRequests(steps: seq<Step>)
    requires Run(steps).Some? && Careful(steps)
    ensures InTurn(Run(steps).value)
  {
    if steps != [] {
      var front, step := steps[..|steps| - 1], steps[|steps| - 1];
      ResponsesFollowRequests(front);
      StepInTurn(Run(front).value, step);
    }
  }

  // ---- The exact condition ----

  /** Further steps from a state. */
  function From(s: State, steps: seq<Step>): Option<State>
    decreases steps
  {
    if steps == [] then Some(s)
    else
      match Next(s, steps[0])
      case None => None
      case Some(t) => From(t, steps[1..])
  }

  ghost predicate NoResponds(steps: seq<Step>) {
    forall i :: 0 <= i < |steps| ==> !steps[i].Respond?
  }

  lemma {:induction false} InTurnFrom(s: State, steps: seq<Step>)
    requires InTurn(s) && NoResponds(steps) && From(s, steps).Some?
    ensures InTurn(From(s, steps).value)
    decreases steps
  {
    if steps != [] {
      StepInTurn(s, steps[0]);
      InTurnFrom(Next(s, steps[0]).value, steps[1..]);
    }
  }

  /** Whatever the tasks do after this call to `respond`, the log stays in order. */
  ghost predicate NeverFirst(s: State, response: HostResponse) {
    forall more: seq<Step> :: NoResponds(more) && From(Next(s, Respond(response)).value, more).Some? ==>
      InOrder(From(Next(s, Respond(response)).value, more).value.log)
  }

  /** A new request with the id parks, the responder takes its sender, and logs before it does. */
  function Overtake(s: State, response: HostResponse): seq<Step> {
    [Arrive(HostRequest(response.requestId, "")), Park(|s.handlers|), TakeSender(|s.responders|), Note(|s.responders|)]
  }

  lemma Parks(s: State, response: HostResponse, t: State)
    requires t == s.(responders := s.responders + [Responder(response, Called)])
    ensures var h := Handler(HostRequest(response.requestId, ""), Begun, Open);
      var u := t.(handlers := t.handlers + [h]);
      && Next(t, Arrive(h.request)) == Some(u) && Next(u, Park(|s.handlers|)).Some?
      && var v := Next(u, Park(|s.handlers|)).value;
        v.log == s.log && response.requestId in v.pending && v.responders == t.responders
  {}

  lemma Answers(v: State, r: nat)
    requires r < |v.responders| && v.responders[r].progress == Called && v.responders[r].response.requestId in v.pending
    ensures Next(v, TakeSender(r)).Some? && Next(Next(v, TakeSender(r)).value, Note(r)).Some?
    ensures Next(Next(v, TakeSender(r)).value, Note(r)).value.log
         == Appended(v.log, Inbound, Ffi, Context, Response(v.responders[r].response))
  {}

  lemma FromFour(s: State, a: Step, b: Step, c: Step, d: Step, t: State, u: State, v: State)
    requires Next(s, a) == Some(t) && Next(t, b) == Some(u) && Next(u, c) == Some(v)
    ensures From(s, [a, b, c, d]) == Next(v, d)
  {
    assert [a, b, c, d][1..] == [b, c, d] && [b, c, d][1..] == [c, d] && [c, d][1..] == [d] && [d][1..] == [];
    var end := Next(v, d);
    assert From(v, [d]) == end by { if end.Some? { assert From(end.value, []) == end; } }
    assert From(u, [c, d]) == end && From(t, [b, c, d]) == end;
  }

  /** From any state at all, answering an id that is not on the log can put the response first. */
  lemma UnaskedComesFirst(s: State, response: HostResponse)
    ensures NoResponds(Overtake(s, response))
    ensures var t := From(Next(s, Respond(response)).value, Overtake(s, response));
      t.Some? && t.value.log == Appended(s.log, Inbound, Ffi, Context, Response(response))
  {
    var t, r := Next(s, Respond(response)).value, |s.responders|;
    Parks(s, response, t);
    var u := Next(t, Arrive(HostRequest(response.requestId, ""))).value;
    var v := Next(u, Park(|s.handlers|)).value;
    assert v.responders[r] == Responder(response, Called);
    Answers(v, r);
    FromFour(t, Arrive(HostRequest(response.requestId, "")), Park(|s.handlers|), TakeSender(r), Note(r), u, v,
      Next(v, TakeSender(r)).value);
  }

  /** At a careful host, one more response is sure to follow its request if and only if a request with
      its id is on the log when the host answers. */
  lemma AnswerIsSafeExactly(steps: seq<Step>, response: HostResponse)
    requires Run(steps).Some? && Careful(steps)
    ensures NeverFirst(Run(steps).value, response) <==> Asked(Run(steps).value.log, response.requestId)
  {
    var s := Run(steps).value;
    if Asked(s.log, response.requestId) {
      ResponsesFollowRequests(steps);
      StepInTurn(s, Respond(response));
      forall more: seq<Step> | NoResponds(more) && From(Next(s, Respond(response)).value, more).Some?
        ensures InOrder(From(Next(s, Respond(response)).value, more).value.log)
      {
        InTurnFrom(Next(s, Respond(response)).value, more);
      }
    } else {
      UnaskedComesFirst(s, response);
      NotInOrder(s.log, response);
    }
  }

  lemma NotInOrder(log: seq<Entry>, response: HostResponse)
    requires !Asked(log, response.requestId)
    ensures !InOrder(Appended(log, Inbound, Ffi, Context, Response(response)))
  {
    var log' := Appended(log, Inbound, Ffi, Context, Response(response));
    assert log'[|log|].payload == Response(response);
    assert forall j :: 0 <= j < |log| ==> log'[j] == log[j];
  }

  // ---- Hosts that poll ----

  ghost predicate Polled(s: State, id: nat) {
    exists k :: 0 <= k < |s.polled| && s.polled[k].RequestItem? && s.polled[k].request.requestId == id
  }

  /** The host answers only ids it has polled. */
  ghost predicate PollsFirst(steps: seq<Step>) {
    steps == [] ||
      var front, step := steps[..|steps| - 1], steps[|steps| - 1];
      PollsFirst(front) && (step.Respond? && Run(front).Some? ==> Polled(Run(front).value, step.response.requestId))
  }

  lemma PolledIsAsked(s: State, id: nat)
    requires InTurn(s) && s.polled <= s.queued && Polled(s, id)
    ensures Asked(s.log, id)
  {
    var k :| 0 <= k < |s.polled| && s.polled[k].RequestItem? && s.polled[k].request.requestId == id;
    assert s.queued[k] == s.polled[k];
  }

  /** Polling first is careful. */
  lemma {:induction false} PollingIsCareful(steps: seq<Step>)
    requires Run(steps).Some? && PollsFirst(steps)
    ensures Careful(steps)
  {
    if steps != [] {
      var front, step := steps[..|steps| - 1], steps[|steps| - 1];
      PollingIsCareful(front);
      if step.Respond? {
        ResponsesFollowRequests(front);
        NothingIsLostOrDoubled(front);
        assert Run(front).value.polled <= Run(front).value.queued;
        PolledIsAsked(Run(front).value, step.response.requestId);
      }
    }
  }
}
