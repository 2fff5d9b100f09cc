/** A live subscription to the merged log: the backlog taken when subscribing, then the bounded
    broadcast channel, with appends falling anywhere in between. Entries are named by sequence number. */
module Subscription {
  import opened Text
  import opened MergedLog

  /** The capacity of the broadcast channel. */
  const CAPACITY: nat := 256

  datatype Item = Entry(seqNo: nat) | Lagged

  /** `head` is the log's last sequence number; `backlog` the next backlog entry still to deliver, and
      `live` the next entry the channel receiver asks for. */
  datatype State = State(joined: nat, head: nat, backlog: nat, live: nat, delivered: seq<Item>)

  datatype Step = Append | Deliver

  /** Subscribe after `after` when the head is `head`: one lock covers the backlog and the receiver. */
  function Subscribe(after: nat, head: nat): State {
    State(head, head, after + 1, head + 1, [])
  }

  /** One append, or one item pulled from the stream; `None` while there is nothing to deliver. */
  function Next(s: State, step: Step): Option<State> {
    match step
    case Append => Some(s.(head := s.head + 1))
    case Deliver =>
      if s.backlog <= s.joined then
        Some(s.(backlog := s.backlog + 1, delivered := s.delivered + [Entry(s.backlog)]))
      else if s.live > s.head then None
      else if s.live + CAPACITY <= s.head then
        Some(s.(live := s.head - CAPACITY + 1, delivered := s.delivered + [Lagged]))
      else
        Some(s.(live := s.live + 1, delivered := s.delivered + [Entry(s.live)]))
  }

  function Run(after: nat, head: nat, steps: seq<Step>): Option<State> {
    if steps == [] then Some(Subscribe(after, head))
    else
      match Run(after, head, steps[..|steps| - 1])
      case None => None
      case Some(s) => Next(s, steps[|steps| - 1])
  }

  /** The first sequence number the stream will carry. */
  function First(after: nat, head: nat): nat {
    (if after < head then after else head) + 1
  }

  /** Items follow on from one another: consecutive unless a `Lagged` stands directly before, and
      always increasing. */
  ghost predicate Orderly(items: seq<Item>, first: nat) {
    && (forall i :: 0 <= i < |items| && items[i].Entry? ==>
         items[i].seqNo == (if i == 0 then first else if items[i - 1].Entry? then items[i - 1].seqNo + 1
           else items[i].seqNo))
    && (forall i, j :: 0 <= i < j < |items| && items[i].Entry? && items[j].Entry? ==> items[i].seqNo < items[j].seqNo)
    && (forall i :: 0 <= i < |items| && items[i].Entry? ==> first <= items[i].seqNo)
  }

  /** The number the stream stands at: the next entry unless a lag intervenes. */
  function Due(s: State): nat {
    if s.backlog <= s.joined then s.backlog else s.live
  }

  ghost predicate Inv(s: State, first: nat) {
    && Orderly(s.delivered, first)
    && s.joined <= s.head && s.joined < s.live && first <= Due(s)
    && (s.backlog <= s.joined ==> s.live == s.joined + 1)
    && (forall i :: 0 <= i < |s.delivered| && s.delivered[i].Entry? ==>
      s.delivered[i].seqNo < Due(s) && s.delivered[i].seqNo <= s.head)
    && (if s.delivered == [] then Due(s) == first
        else s.delivered[|s.delivered| - 1].Entry? ==> Due(s) == s.delivered[|s.delivered| - 1].seqNo + 1)
  }

  /** More unread entries than the channel holds, with the backlog delivered. */
  predicate Behind(s: State) {
    s.backlog > s.joined && s.head - s.live + 1 > CAPACITY
  }

  /** What may come next in an orderly stream. */
  ghost predicate Follows(items: seq<Item>, first: nat, n: nat) {
    && first <= n && (items == [] ==> n == first)
    && (items != [] && items[|items| - 1].Entry? ==> n == items[|items| - 1].seqNo + 1)
    && forall i :: 0 <= i < |items| && items[i].Entry? ==> items[i].seqNo < n
  }

  lemma OrderlySnoc(items: seq<Item>, first: nat, item: Item)
    requires Orderly(items, first) && (item.Entry? ==> Follows(items, first, item.seqNo))
    ensures Orderly(items + [item], first)
  {}

  lemma StepInv(s: State, step: Step, first: nat)
    requires Inv(s, first) && Next(s, step).Some?
    ensures Inv(Next(s, step).value, first)
  {
    if step == Deliver {
      var s' := Next(s, step).value;
      assert Follows(s.delivered, first, Due(s));
      var item := if Behind(s) then Lagged else Entry(Due(s));
      OrderlySnoc(s.delivered, first, item);
      assert s'.delivered == s.delivered + [item];
    }
  }

  lemma {:induction false} RunInv(after: nat, head: nat, steps: seq<Step>)
    requires Run(after, head, steps).Some?
    ensures Inv(Run(after, head, steps).value, First(after, head)) && Run(after, head, steps).value.joined == head
  {
    if steps != [] {
      RunInv(after, head, steps[..|steps| - 1]);
      StepInv(Run(after, head, steps[..|steps| - 1]).value, steps[|steps| - 1], First(after, head));
    }
  }

  /** However appends interleave with the subscription, the stream is orderly from its first number;
      without a `Lagged` it is exactly every number from there on; and it starts right after the
      requested cursor exactly when that cursor is not beyond the head. */
  lemma StreamIsOrderly(after: nat, head: nat, steps: seq<Step>)
    requires Run(after, head, steps).Some?
    ensures var items := Run(after, head, steps).value.delivered;
      && Orderly(items, First(after, head))
      && (Lagged !in items ==> forall i :: 0 <= i < |items| ==> items[i] == Entry(First(after, head) + i))
      && (First(after, head) == after + 1 <==> after <= head)
  {
    RunInv(after, head, steps);
    var items := Run(after, head, steps).value.delivered;
    if Lagged !in items {
      forall i | 0 <= i < |items| ensures items[i] == Entry(First(after, head) + i) {
        ConsecutiveAt(items, First(after, head), i);
      }
    }
  }

  lemma {:induction false} ConsecutiveAt(items: seq<Item>, first: nat, i: nat)
    requires Orderly(items, first) && Lagged !in items && i < |items|
    ensures items[i] == Entry(first + i)
  {
    assert items[i] in items && items[i].Entry?;
    if i > 0 {
      ConsecutiveAt(items, first, i - 1);
      assert items[i].seqNo == items[i - 1].seqNo + 1;
    }
  }

  /** A subscriber that asked for more than the log holds is sent entries it said it had: the live part
      of the stream is not filtered by the cursor. */
  lemma BeyondHeadRepeats(after: nat, head: nat)
    requires head < after
    ensures Run(after, head, [Append, Deliver]).Some?
    ensures Run(after, head, [Append, Deliver]).value.delivered == [Entry(head + 1)] && head + 1 <= after
  {
    assert [Append, Deliver][..1] == [Append] && [Append][..0] == [];
    assert Run(after, head, [Append]) == Some(Subscribe(after, head).(head := head + 1));
  }

  // ---- The backlog ----

  /** What subscribing to a log takes down is where the stream starts. */
  lemma SubscribedTo<P>(log: seq<LogEntry<P>>, after: nat)
    requires Stamped(log)
    ensures var s, backlog := Subscribe(after, |log|), Past(log, after);
      && s.live == |log| + 1 && |backlog| == (if s.backlog <= s.joined then s.joined + 1 - s.backlog else 0)
      && forall i :: 0 <= i < |backlog| ==> backlog[i].seqNo == s.backlog + i
  {}

  function Count(steps: seq<Step>, step: Step): nat {
    if steps == [] then 0 else Count(steps[..|steps| - 1], step) + if steps[|steps| - 1] == step then 1 else 0
  }

  /** While there have been no more pulls than the backlog has entries, they have delivered its first
      entries, one by one, whatever was appended meanwhile. */
  lemma {:induction false} BacklogComesFirst<P>(log: seq<LogEntry<P>>, after: nat, steps: seq<Step>)
    requires Stamped(log) && Count(steps, Deliver) <= |Past(log, after)|
    ensures Run(after, |log|, steps).Some?
    ensures var s, k := Run(after, |log|, steps).value, Count(steps, Deliver);
      && s.joined == |log| && s.backlog == after + 1 + k && |s.delivered| == k
      && forall i :: 0 <= i < k ==> s.delivered[i] == Entry(Past(log, after)[i].seqNo)
  {
    if steps != [] {
      var front, step := steps[..|steps| - 1], steps[|steps| - 1];
      BacklogComesFirst(log, after, front);
      if step == Deliver {
        assert Past(log, after)[Count(front, Deliver)].seqNo == after + 1 + Count(front, Deliver);
      }
    }
  }

  // ---- Lags ----

  /** The last entry a stream without lags has delivered after these steps, and the head of the log. */
  function Reached(after: nat, head: nat, steps: seq<Step>): nat {
    First(after, head) - 1 + Count(steps, Deliver)
  }

  function HeadAfter(head: nat, steps: seq<Step>): nat {
    head + Count(steps, Append)
  }

  /** A pull past the backlog with more entries behind it than the channel holds. */
  ghost predicate PullsLate(after: nat, head: nat, steps: seq<Step>, k: nat) {
    && k < |steps| && steps[k] == Deliver
    && Reached(after, head, steps[..k]) >= head
      && HeadAfter(head, steps[..k]) - Reached(after, head, steps[..k]) > 256
  }

  /** Without a lag, the position in the stream is a matter of counting steps. */
  lemma {:induction false} PositionIsCounted(after: nat, head: nat, steps: seq<Step>)
    requires Run(after, head, steps).Some?
    ensures var s := Run(after, head, steps).value;
      && s.joined == head && s.head == HeadAfter(head, steps)
      && (Lagged !in s.delivered ==>
        Due(s) == Reached(after, head, steps) + 1 && (s.backlog > s.joined <==> Due(s) > head))
  {
    if steps != [] {
      var front, step := steps[..|steps| - 1], steps[|steps| - 1];
      PositionIsCounted(after, head, front);
      LagIsBehind(Run(after, head, front).value, step);
      LiveFollowsBacklog(after, head, front);
    }
  }

  lemma {:induction false} LiveFollowsBacklog(after: nat, head: nat, steps: seq<Step>)
    requires Run(after, head, steps).Some?
    ensures var s := Run(after, head, steps).value;
      s.joined == head && s.joined < s.live && (s.backlog <= s.joined ==> s.live == s.joined + 1)
  {
    if steps != [] { LiveFollowsBacklog(after, head, steps[..|steps| - 1]); }
  }

  lemma LagIsBehind(s: State, step: Step)
    requires Next(s, step).Some?
    ensures Lagged in Next(s, step).value.delivered <==> Lagged in s.delivered || (step == Deliver && Behind(s))
  {}

  lemma LateInFront(after: nat, head: nat, steps: seq<Step>, k: nat)
    requires k < |steps| - 1
    ensures PullsLate(after, head, steps, k) <==> PullsLate(after, head, steps[..|steps| - 1], k)
  {
    assert steps[..|steps| - 1][..k] == steps[..k];
  }

  /** A run reports a lag if and only if some pull came more than a channel's capacity late, counting
      nothing but the appends and the pulls before it. */
  lemma {:induction false} LaggedExactlyWhenLate(after: nat, head: nat, steps: seq<Step>)
    requires Run(after, head, steps).Some?
    ensures Lagged in Run(after, head, steps).value.delivered <==> exists k :: PullsLate(after, head, steps, k)
  {
    if steps != [] {
      var front, step := steps[..|steps| - 1], steps[|steps| - 1];
      LaggedExactlyWhenLate(after, head, front);
      forall k: nat | k < |front| ensures PullsLate(after, head, front, k) <==> PullsLate(after, head, steps, k) {
        LateInFront(after, head, steps, k);
      }
      LagIsBehind(Run(after, head, front).value, step);
      PositionIsCounted(after, head, front);
      assert Lagged !in Run(after, head, front).value.delivered ==>
        (PullsLate(after, head, steps, |front|) <==> step == Deliver && Behind(Run(after, head, front).value));
    }
  }

  /** Until a lag, a pull is served exactly when the log holds an entry the stream has not delivered. */
  lemma PullIsServed(after: nat, head: nat, steps: seq<Step>)
    requires Run(after, head, steps).Some? && Lagged !in Run(after, head, steps).value.delivered
    ensures Run(after, head, steps + [Deliver]).Some? <==> Reached(after, head, steps) < HeadAfter(head, steps)
  {
    assert (steps + [Deliver])[..|steps|] == steps;
    PositionIsCounted(after, head, steps);
    RunInv(after, head, steps);
  }

  /** After a lag the receiver stands at or before the oldest entry the channel still holds. */
  ghost predicate Resumes(s: State) {
    s.delivered != [] && s.delivered[|s.delivered| - 1] == Lagged ==>
      s.backlog > s.joined && s.live + CAPACITY <= s.head + 1
  }

  lemma {:induction false} LagResumes(after: nat, head: nat, steps: seq<Step>)
    requires Run(after, head, steps).Some?
    ensures Resumes(Run(after, head, steps).value)
  {
    if steps != [] { LagResumes(after, head, steps[..|steps| - 1]); }
  }

  /** A pull after a lag delivers the oldest of the last 256 entries on the log, or reports another lag;
      the latter only when something was appended since. */
  lemma OldestComesAfterLag(after: nat, head: nat, steps: seq<Step>)
    requires Run(after, head, steps).Some?
    requires var s := Run(after, head, steps).value; s.delivered != [] && s.delivered[|s.delivered| - 1] == Lagged
    ensures var s := Run(after, head, steps).value;
      && Next(s, Deliver).Some?
      && var items := Next(s, Deliver).value.delivered;
        && items != [] && items[..|items| - 1] == s.delivered
        && match items[|items| - 1]
           case Entry(n) => n + 256 == s.head + 1
           case Lagged => steps[|steps| - 1] == Append
  {
    LagResumes(after, head, steps);
    var s := Run(after, head, steps).value;
    var items := Next(s, Deliver).value.delivered;
    assert items[..|items| - 1] == s.delivered;
  }
}
