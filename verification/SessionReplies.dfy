/** Parked requests and their responses, over every interleaving of a session. */
module SessionReplies {
  import opened Text
  import opened Session

  /** Parked and not yet returned. */
  predicate Awaiting(h: Handler) {
    h.stage == Parked || h.stage == Recorded || h.stage == Waiting
  }

  function Id(h: Handler): nat {
    h.request.requestId
  }

  /** The handler whose sender a responder has taken. */
  function Target(p: Progress): Option<nat> {
    match p
    case Took(h) => Some(h)
    case Noted(h) => Some(h)
    case Sent(h) => Some(h)
    case Called => None
    case Refused => None
  }

  predicate Holds(p: Progress, h: nat) {
    p == Took(h) || p == Noted(h)
  }

  /** The table names, under each id, a handler of that id that still waits on an open channel. */
  ghost predicate TableOk(s: State) {
    forall id :: id in s.pending ==>
      s.pending[id] < |s.handlers| && Id(s.handlers[s.pending[id]]) == id && Awaiting(s.handlers[s.pending[id]])
      && s.handlers[s.pending[id]].channel == Open
  }

  /** A responder that took a sender took that of a handler with its own id; the handler is no longer in
      the table, and hears nothing but this response. */
  ghost predicate SendersOk(s: State) {
    forall r :: 0 <= r < |s.responders| && Target(s.responders[r].progress).Some? ==>
      var x := s.responders[r];
      var h := Target(x.progress).value;
      && h < |s.handlers| && Id(s.handlers[h]) == x.response.requestId
      && (x.response.requestId in s.pending ==> s.pending[x.response.requestId] != h)
      && if x.progress.Sent? then s.handlers[h].channel == Answered(x.response)
         else s.handlers[h].channel == Open && Awaiting(s.handlers[h])
  }

  ghost predicate SendersDiffer(s: State) {
    forall q, r :: 0 <= q < r < |s.responders| && Target(s.responders[q].progress).Some? ==>
      Target(s.responders[q].progress) != Target(s.responders[r].progress)
  }

  ghost predicate HeldSomewhere(s: State, h: nat) {
    exists r :: 0 <= r < |s.responders| && Holds(s.responders[r].progress, h)
  }

  ghost predicate SentSomewhere(s: State, h: nat, response: HostResponse) {
    exists r :: 0 <= r < |s.responders| && s.responders[r] == Responder(response, Sent(h))
  }

  ghost predicate DisplacedBySameId(s: State, h: nat)
    requires h < |s.handlers|
  {
    exists g :: 0 <= g < |s.handlers| && g != h && Id(s.handlers[g]) == Id(s.handlers[h])
      && s.handlers[g].stage != Begun
  }

  /** What a handler's channel can say, and what the handler can have returned. */
  ghost predicate HandlerOk(s: State, h: nat)
    requires h < |s.handlers|
  {
    var x := s.handlers[h];
    && (x.stage == Begun ==> x.channel == Open)
    && (x.channel == Open && Awaiting(x) ==> (Id(x) in s.pending && s.pending[Id(x)] == h) || HeldSomewhere(s, h))
    && (x.channel.Answered? ==> SentSomewhere(s, h, x.channel.response))
    && (x.channel == Dropped ==> DisplacedBySameId(s, h))
    && (x.stage.Done? ==> if x.channel.Answered? then x.stage.response == x.channel.response
                          else x.channel == Dropped && x.stage.response == Denial(Id(x)))
  }

  ghost predicate Inv(s: State) {
    TableOk(s) && SendersOk(s) && SendersDiffer(s) && forall h :: 0 <= h < |s.handlers| ==> HandlerOk(s, h)
  }

  /** Tasks only move forward: ids stay, parked stays parked, sent stays sent. */
  ghost predicate Forward(s: State, s': State) {
    && |s.handlers| <= |s'.handlers| && |s.responders| <= |s'.responders|
    && (forall k :: 0 <= k < |s.handlers| ==>
      Id(s'.handlers[k]) == Id(s.handlers[k]) && (s.handlers[k].stage != Begun ==> s'.handlers[k].stage != Begun))
    && (forall r :: 0 <= r < |s.responders| && s.responders[r].progress.Sent? ==> s'.responders[r] == s.responders[r])
  }

  /** A handler that still waits can still be answered. */
  ghost predicate Answerable(s: State, h: nat)
    requires h < |s.handlers|
  {
    (Id(s.handlers[h]) in s.pending && s.pending[Id(s.handlers[h])] == h) || HeldSomewhere(s, h)
  }

  /** An untouched handler stays in order if it stays answerable. */
  lemma KeepHandler(s: State, s': State, h: nat)
    requires h < |s.handlers| && HandlerOk(s, h) && Forward(s, s') && s'.handlers[h] == s.handlers[h]
    requires s.handlers[h].channel == Open && Awaiting(s.handlers[h]) ==> Answerable(s', h)
    ensures HandlerOk(s', h)
  {
    var x := s.handlers[h];
    if x.channel.Answered? {
      var r :| 0 <= r < |s.responders| && s.responders[r] == Responder(x.channel.response, Sent(h));
      assert s'.responders[r] == Responder(x.channel.response, Sent(h));
    }
    if x.channel == Dropped {
      KeepDisplaced(s, s', h);
    }
  }

  lemma KeepDisplaced(s: State, s': State, h: nat)
    requires h < |s.handlers| && Forward(s, s') && DisplacedBySameId(s, h)
    ensures DisplacedBySameId(s', h)
  {
    var g :| 0 <= g < |s.handlers| && g != h && Id(s.handlers[g]) == Id(s.handlers[h]) && s.handlers[g].stage != Begun;
    assert s'.handlers[g].stage != Begun;
  }

  lemma KeepHeld(s: State, s': State, h: nat)
    requires HeldSomewhere(s, h) && |s.responders| <= |s'.responders|
    requires forall r :: 0 <= r < |s.responders| && Holds(s.responders[r].progress, h) ==>
      Holds(s'.responders[r].progress, h)
    ensures HeldSomewhere(s', h)
  {
    var r :| 0 <= r < |s.responders| && Holds(s.responders[r].progress, h);
    assert Holds(s'.responders[r].progress, h);
  }

  /** Steps that touch neither table, handlers nor responders. */
  lemma ElsewhereInv(s: State, s': State)
    requires Inv(s) && s'.pending == s.pending && s'.handlers == s.handlers && s'.responders == s.responders
    ensures Inv(s')
  {
    forall h | 0 <= h < |s'.handlers| ensures HandlerOk(s', h) {
      if HeldSomewhere(s, h) { KeepHeld(s, s', h); }
      KeepHandler(s, s', h);
    }
  }

  lemma ArriveInv(s: State, req: HostRequest, s': State)
    requires Inv(s) && Next(s, Arrive(req)) == Some(s')
    ensures Inv(s')
  {
    forall h | 0 <= h < |s'.handlers| ensures HandlerOk(s', h) {
      if h < |s.handlers| {
        if HeldSomewhere(s, h) { KeepHeld(s, s', h); }
        KeepHandler(s, s', h);
      }
    }
  }

  lemma RespondInv(s: State, resp: HostResponse, s': State)
    requires Inv(s) && Next(s, Respond(resp)) == Some(s')
    ensures Inv(s')
  {
    forall h | 0 <= h < |s'.handlers| ensures HandlerOk(s', h) {
      if HeldSomewhere(s, h) { KeepHeld(s, s', h); }
      KeepHandler(s, s', h);
    }
  }

  /** A handler moves on while it waits. */
  lemma AdvanceInv(s: State, step: Step, s': State)
    requires Inv(s) && (step.Record? || step.Queue?) && Next(s, step) == Some(s')
    ensures Inv(s')
  {
    MovedInv(s, step.h, s'.handlers[step.h].stage, s');
  }

  lemma MovedInv(s: State, h: nat, stage: Stage, s': State)
    requires Inv(s) && h < |s.handlers| && Awaiting(s.handlers[h]) && (stage == Recorded || stage == Waiting)
    requires s'.handlers == s.handlers[h := s.handlers[h].(stage := stage)] && s'.responders == s.responders
      && s'.pending == s.pending
    ensures Inv(s')
  {
    forall g | 0 <= g < |s'.handlers| ensures HandlerOk(s', g) {
      assert HandlerOk(s, g);
      if HeldSomewhere(s, g) { KeepHeld(s, s', g); }
      if g != h { KeepHandler(s, s', g); } else { SameChannel(s, s', h); }
    }
  }

  /** The channel says what it said. */
  lemma SameChannel(s: State, s': State, h: nat)
    requires h < |s.handlers| && HandlerOk(s, h) && Forward(s, s') && s'.handlers[h].channel == s.handlers[h].channel
    ensures s.handlers[h].channel == Dropped ==> DisplacedBySameId(s', h)
    ensures s.handlers[h].channel.Answered? ==> SentSomewhere(s', h, s.handlers[h].channel.response)
  {
    if s.handlers[h].channel == Dropped { KeepDisplaced(s, s', h); }
    if s.handlers[h].channel.Answered? {
      var r :| 0 <= r < |s.responders| && s.responders[r] == Responder(s.handlers[h].channel.response, Sent(h));
      assert s'.responders[r] == s.responders[r];
    }
  }

  /** A handler returns what its channel says. */
  lemma ReceiveInv(s: State, h: nat, s': State)
    requires Inv(s) && Next(s, Receive(h)) == Some(s')
    ensures Inv(s')
  {
    assert s'.handlers == s.handlers[h := s'.handlers[h]] && s'.responders == s.responders && s'.pending == s.pending;
    forall g | 0 <= g < |s'.handlers| ensures HandlerOk(s', g) {
      assert HandlerOk(s, g);
      if HeldSomewhere(s, g) { KeepHeld(s, s', g); }
      if g != h { KeepHandler(s, s', g); } else { SameChannel(s, s', h); }
    }
  }

  /** A handler that has not parked is unknown to table and responders. */
  lemma BegunIsUnknown(s: State, h: nat)
    requires Inv(s) && h < |s.handlers| && s.handlers[h].stage == Begun
    ensures Id(s.handlers[h]) in s.pending ==> s.pending[Id(s.handlers[h])] != h
    ensures forall r :: 0 <= r < |s.responders| ==> Target(s.responders[r].progress) != Some(h)
  {
    assert HandlerOk(s, h);
  }

  lemma ParkTables(s: State, h: nat, s': State)
    requires Inv(s) && Next(s, Park(h)) == Some(s')
    ensures TableOk(s') && SendersOk(s') && SendersDiffer(s') && Forward(s, s')
  {
    BegunIsUnknown(s, h);
    assert HandlerOk(s, h);
  }

  lemma ParkInv(s: State, h: nat, s': State)
    requires Inv(s) && Next(s, Park(h)) == Some(s')
    ensures Inv(s')
  {
    var id := Id(s.handlers[h]);
    BegunIsUnknown(s, h);
    ParkTables(s, h, s');
    forall g | 0 <= g < |s'.handlers| ensures HandlerOk(s', g) {
      assert HandlerOk(s, g);
      if HeldSomewhere(s, g) { KeepHeld(s, s', g); }
      if g == h {
      } else if id in s.pending && s.pending[id] == g {
        assert DisplacedBySameId(s', g) by {
          assert Id(s'.handlers[h]) == Id(s'.handlers[g]) && s'.handlers[h].stage == Parked;
        }
      } else {
        KeepHandler(s, s', g);
      }
    }
  }

  lemma TakeInv(s: State, r: nat, s': State)
    requires Inv(s) && Next(s, TakeSender(r)) == Some(s')
    ensures Inv(s')
  {
    var id := s.responders[r].response.requestId;
    assert Target(s.responders[r].progress).None?;
    forall g | 0 <= g < |s'.handlers| ensures HandlerOk(s', g) {
      assert HandlerOk(s, g);
      if HeldSomewhere(s, g) { KeepHeld(s, s', g); }
      if id in s.pending && s.pending[id] == g { assert Holds(s'.responders[r].progress, g); }
      KeepHandler(s, s', g);
    }
  }

  lemma NoteInv(s: State, r: nat, s': State)
    requires Inv(s) && Next(s, Note(r)) == Some(s')
    ensures Inv(s')
  {
    forall g | 0 <= g < |s'.handlers| ensures HandlerOk(s', g) {
      assert HandlerOk(s, g);
      if HeldSomewhere(s, g) { KeepHeld(s, s', g); }
      KeepHandler(s, s', g);
    }
  }

  lemma SendInv(s: State, r: nat, s': State)
    requires Inv(s) && Next(s, Send(r)) == Some(s')
    ensures Inv(s')
  {
    var h := s.responders[r].progress.task;
    assert Target(s.responders[r].progress) == Some(h);
    assert forall q :: 0 <= q < |s.responders| && q != r ==> Target(s.responders[q].progress) != Some(h);
    forall g | 0 <= g < |s'.handlers| ensures HandlerOk(s', g) {
      assert HandlerOk(s, g);
      if g == h {
        assert s'.responders[r] == Responder(s.responders[r].response, Sent(h));
      } else {
        if HeldSomewhere(s, g) { KeepHeld(s, s', g); }
        KeepHandler(s, s', g);
      }
    }
  }

  lemma StepInv(s: State, step: Step)
    requires Inv(s) && Next(s, step).Some?
    ensures Inv(Next(s, step).value)
  {
    var s' := Next(s, step).value;
    match step
    case Arrive(req) => ArriveInv(s, req, s');
    case Park(h) => ParkInv(s, h, s');
    case Record(_) => AdvanceInv(s, step, s');
    case Queue(_) => AdvanceInv(s, step, s');
    case Receive(h) => ReceiveInv(s, h, s');
    case Respond(resp) => RespondInv(s, resp, s');
    case TakeSender(r) => TakeInv(s, r, s');
    case Note(r) => NoteInv(s, r, s');
    case Send(r) => SendInv(s, r, s');
    case _ => ElsewhereInv(s, s');
  }

  lemma {:induction false} RunInv(steps: seq<Step>)
    requires Run(steps).Some?
    ensures Inv(Run(steps).value)
  {
    if steps != [] {
      RunInv(steps[..|steps| - 1]);
      StepInv(Run(steps[..|steps| - 1]).value, steps[|steps| - 1]);
    }
  }

  /** Neither now nor for good is the request approved, and no reason is given. */
  predicate Denies(response: HostResponse) {
    response.body.Approved? && !response.body.approved && !response.body.allowPermanent && response.body.reason == None
  }

  /** In every interleaving, a request that completes returns either the one response that was sent to
      it, which carries its own id, or the denial, and the denial only when another request with the
      same id was parked. No two responses reach the same request. */
  lemma RepliesMatch(steps: seq<Step>, h: nat)
    requires Run(steps).Some? && h < |Run(steps).value.handlers| && Run(steps).value.handlers[h].stage.Done?
    ensures var s := Run(steps).value;
      var got := s.handlers[h].stage.response;
      && got.requestId == Id(s.handlers[h])
      && (SentSomewhere(s, h, got) || (Denies(got) && DisplacedBySameId(s, h)))
      && (forall q, r | 0 <= q < r < |s.responders| ::
        Target(s.responders[q].progress) != Some(h) || Target(s.responders[r].progress) != Some(h))
  {
    RunInv(steps);
    var s := Run(steps).value;
    assert HandlerOk(s, h);
    if s.handlers[h].channel.Answered? {
      var r :| 0 <= r < |s.responders| && s.responders[r] == Responder(s.handlers[h].channel.response, Sent(h));
    }
  }

  /** No waiting request is ever lost: until something was sent to it, it is in the table under its own
      id or a responder holds its sender, unless another request with its id displaced it. */
  lemma WaitingCanBeAnswered(steps: seq<Step>, h: nat)
    requires Run(steps).Some? && h < |Run(steps).value.handlers| && Awaiting(Run(steps).value.handlers[h])
    ensures var s := Run(steps).value;
      || Answerable(s, h)
      || s.handlers[h].channel.Answered?
      || DisplacedBySameId(s, h)
  {
    RunInv(steps);
    assert HandlerOk(Run(steps).value, h);
  }

  // ---- Displaced requests ----

  /** The handler waits on a dropped channel for an answer to this id. */
  ghost predicate Doomed(s: State, h: nat, id: nat) {
    h < |s.handlers| && s.handlers[h].channel == Dropped && Id(s.handlers[h]) == id
  }

  /** A dropped channel stays dropped. */
  lemma StepKeepsDoomed(s: State, step: Step, h: nat, id: nat)
    requires Inv(s) && Next(s, step).Some? && Doomed(s, h, id)
    ensures Doomed(Next(s, step).value, h, id)
  {}

  lemma DoomedIsDenied(s: State, h: nat, id: nat)
    requires Inv(s) && Doomed(s, h, id) && s.handlers[h].stage.Done?
    ensures s.handlers[h].stage.response == Denial(id)
  {
    assert HandlerOk(s, h);
  }

  lemma FrontOfSum<T>(a: seq<T>, b: seq<T>, all: seq<T>)
    requires b != [] && all == a + b
    ensures all != [] && all[..|all| - 1] == a + b[..|b| - 1] && all[|all| - 1] == b[|b| - 1]
  {}

  lemma LastStep(all: seq<Step>, front: seq<Step>, step: Step)
    requires all != [] && all[..|all| - 1] == front && all[|all| - 1] == step && Run(all).Some?
    ensures Run(front).Some? && Run(all) == Next(Run(front).value, step)
  {}

  lemma RunsOn(steps: seq<Step>, more: seq<Step>)
    requires more != [] && Run(steps + more).Some?
    ensures Run(steps + more[..|more| - 1]).Some?
    ensures Run(steps + more) == Next(Run(steps + more[..|more| - 1]).value, more[|more| - 1])
  {
    FrontOfSum(steps, more, steps + more);
    LastStep(steps + more, steps + more[..|more| - 1], more[|more| - 1]);
  }

  lemma {:induction false} StaysDoomed(steps: seq<Step>, more: seq<Step>, h: nat, id: nat)
    requires Run(steps).Some? && Run(steps + more).Some? && Doomed(Run(steps).value, h, id)
    ensures Doomed(Run(steps + more).value, h, id)
  {
    if more == [] {
      assert steps + more == steps;
    } else {
      RunsOn(steps, more);
      StaysDoomed(steps, more[..|more| - 1], h, id);
      RunInv(steps + more[..|more| - 1]);
      StepKeepsDoomed(Run(steps + more[..|more| - 1]).value, more[|more| - 1], h, id);
    }
  }

  lemma ParkDooms(s: State, h: nat, g: nat, id: nat)
    requires Inv(s) && Next(s, Park(h)).Some? && Id(s.handlers[h]) == id && id in s.pending && s.pending[id] == g
    ensures Doomed(Next(s, Park(h)).value, g, id)
  {
    BegunIsUnknown(s, h);
  }

  /** Parking under an id whose sender is still in the table dooms the request parked there: whatever
      happens next, it returns nothing but the denial. */
  lemma DisplacedIsDenied(steps: seq<Step>, h: nat, g: nat, id: nat, more: seq<Step>)
    requires Run(steps).Some? && Run(steps + [Park(h)]).Some? && Run(steps + [Park(h)] + more).Some?
    requires var s := Run(steps).value;
      h < |s.handlers| && Id(s.handlers[h]) == id && id in s.pending && s.pending[id] == g
    ensures var s := Run(steps + [Park(h)] + more).value;
      Doomed(s, g, id) && (s.handlers[g].stage.Done? ==>
        s.handlers[g].stage.response.requestId == id && Denies(s.handlers[g].stage.response))
  {
    RunInv(steps);
    assert (steps + [Park(h)])[..|steps|] == steps;
    ParkDooms(Run(steps).value, h, g, id);
    StaysDoomed(steps + [Park(h)], more, g, id);
    RunInv(steps + [Park(h)] + more);
    if Run(steps + [Park(h)] + more).value.handlers[g].stage.Done? {
      DoomedIsDenied(Run(steps + [Park(h)] + more).value, g, id);
    }
  }
}
