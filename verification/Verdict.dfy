/** The per-peer digest verdict: a tally and a quorum for every round, and the first round in which
    reporting peers differ. Digests are 128-bit numbers. */
module Verdict {
  import opened Text
  import opened Sorting

  /** What each peer reported: digests by round. */
  type Reports<P> = map<P, map<nat, nat>>

  datatype PeerFact = PeerFact(digest: nat, agree: bool)

  datatype RoundAgreement<P> = RoundAgreement(round: nat, quorum: nat, peers: map<P, PeerFact>, agree: bool)

  datatype PeerVerdict<P> = PeerVerdict(peers: seq<P>, rounds: seq<RoundAgreement<P>>, firstDivergence: Option<nat>,
      agree: bool)

  predicate Reported<P>(said: Reports<P>, p: P, round: nat) {
    p in said && round in said[p]
  }

  /** Two peers report different digests for the round. */
  ghost predicate Diverges<P(!new)>(said: Reports<P>, round: nat) {
    exists p, q :: Reported(said, p, round) && Reported(said, q, round) && said[p][round] != said[q][round]
  }

  ghost function Voters<P(!new)>(said: Reports<P>, peers: set<P>, round: nat, digest: nat): set<P> {
    set p | p in peers && Reported(said, p, round) && said[p][round] == digest
  }

  /** How many peers report this digest for the round. */
  ghost function Votes<P(!new)>(said: Reports<P>, round: nat, digest: nat): nat {
    |Voters(said, said.Keys, round, digest)|
  }

  function Rounds<P>(said: Reports<P>): set<nat> {
    set p, r | p in said && r in said[p] :: r
  }

  ghost predicate Tallies<P(!new)>(said: Reports<P>, peers: set<P>, round: nat, tally: map<nat, nat>) {
    && (forall p :: p in peers && Reported(said, p, round) ==> said[p][round] in tally)
    && (forall d :: d in tally ==> tally[d] == |Voters(said, peers, round, d)| && tally[d] > 0)
  }

  /** One more report of digest `d`. */
  function Counted(tally: map<nat, nat>, d: nat): map<nat, nat> {
    tally[d := (if d in tally then tally[d] else 0) + 1]
  }

  lemma TallyOne<P(!new)>(said: Reports<P>, peers: set<P>, p: P, round: nat, tally: map<nat, nat>)
    requires Tallies(said, peers, round, tally) && p !in peers && p in said
    ensures Tallies(said, peers + {p}, round, if round in said[p] then Counted(tally, said[p][round]) else tally)
  {
    var now := peers + {p};
    forall d
      ensures |Voters(said, now, round, d)|
           == |Voters(said, peers, round, d)| + if round in said[p] && said[p][round] == d then 1 else 0
    {
      var had := Voters(said, peers, round, d);
      if round in said[p] && said[p][round] == d {
        assert Voters(said, now, round, d) == had + {p};
      } else {
        assert Voters(said, now, round, d) == had;
      }
    }
    if round in said[p] && said[p][round] !in tally {
      var none := Voters(said, peers, round, said[p][round]);
      assert none == {};
    }
  }

  method Tally<P(==,!new)>(said: Reports<P>, round: nat) returns (tally: map<nat, nat>)
    ensures Tallies(said, said.Keys, round, tally)
  {
    tally := map[];
    var todo := said.Keys;
    while todo != {}
      invariant todo <= said.Keys && Tallies(said, said.Keys - todo, round, tally)
    {
      var p :| p in todo;
      TallyOne(said, said.Keys - todo, p, round, tally);
      assert said.Keys - todo + {p} == said.Keys - (todo - {p});
      if round in said[p] {
        tally := Counted(tally, said[p][round]);
      }
      todo := todo - {p};
    }
    assert said.Keys - todo == said.Keys;
  }

  /** The most-reported digest; the largest among equals, as the last maximum of an ordered map. */
  method Quorum(tally: map<nat, nat>) returns (q: nat)
    requires tally != map[]
    ensures q in tally && forall d :: d in tally ==> tally[d] < tally[q] || (tally[d] == tally[q] && d <= q)
  {
    q :| q in tally;
    var todo := tally.Keys - {q};
    while todo != {}
      invariant q in tally && todo <= tally.Keys
      invariant forall d :: d in tally.Keys - todo ==> tally[d] < tally[q] || (tally[d] == tally[q] && d <= q)
    {
      var d :| d in todo;
      if tally[d] > tally[q] || (tally[d] == tally[q] && d > q) {
        q := d;
      }
      todo := todo - {d};
    }
  }

  /** `q` has the most votes of the round, and is the largest digest that has so many. */
  ghost predicate IsQuorum<P(!new)>(said: Reports<P>, round: nat, q: nat) {
    && Votes(said, round, q) > 0
    && forall d: nat ::
      Votes(said, round, d) < Votes(said, round, q) || (Votes(said, round, d) == Votes(said, round, q) && d <= q)
  }

  /** The facts of one round: the quorum digest, every reporting peer is marked by whether it
      agrees with it, and the round agrees exactly when no two reporting peers differ. */
  ghost predicate RoundOk<P(!new)>(said: Reports<P>, a: RoundAgreement<P>) {
    && IsQuorum(said, a.round, a.quorum)
    && (forall p :: p in a.peers <==> Reported(said, p, a.round))
    && (forall p :: p in a.peers ==> a.peers[p] == PeerFact(said[p][a.round], said[p][a.round] == a.quorum))
    && (a.agree <==> !Diverges(said, a.round))
  }

  method JudgeRound<P(==,!new)>(said: Reports<P>, round: nat) returns (a: RoundAgreement<P>)
    requires round in Rounds(said)
    ensures a.round == round && RoundOk(said, a)
  {
    var tally := Tally(said, round);
    SomeoneVoted(said, round, tally);
    var quorum := Quorum(tally);
    QuorumIsMost(said, round, tally, quorum);
    var peers: map<P, PeerFact> := map[];
    var agree := true;
    var todo := said.Keys;
    while todo != {}
      invariant todo <= said.Keys
      invariant forall p :: p in peers <==> p in said.Keys - todo && Reported(said, p, round)
      invariant forall p :: p in peers ==> peers[p] == PeerFact(said[p][round], said[p][round] == quorum)
      invariant agree <==> forall p :: p in peers ==> said[p][round] == quorum
    {
      var p :| p in todo;
      if round in said[p] {
        var d := said[p][round];
        agree := agree && d == quorum;
        peers := peers[p := PeerFact(d, d == quorum)];
      }
      todo := todo - {p};
    }
    AgreeIsNoDivergence(said, round, quorum, peers, agree);
    a := RoundAgreement(round, quorum, peers, agree);
  }

  lemma SomeoneVoted<P(!new)>(said: Reports<P>, round: nat, tally: map<nat, nat>)
    requires round in Rounds(said) && Tallies(said, said.Keys, round, tally)
    ensures tally != map[]
  {
    var p :| p in said && round in said[p];
    assert Reported(said, p, round);
    assert said[p][round] in tally;
  }

  lemma QuorumIsMost<P(!new)>(said: Reports<P>, round: nat, tally: map<nat, nat>, q: nat)
    requires Tallies(said, said.Keys, round, tally) && q in tally
    requires forall d :: d in tally ==> tally[d] < tally[q] || (tally[d] == tally[q] && d <= q)
    ensures IsQuorum(said, round, q)
  {
    forall d: nat
      ensures Votes(said, round, d) < Votes(said, round, q)
        || (Votes(said, round, d) == Votes(said, round, q) && d <= q)
    {
      if d !in tally {
        assert Voters(said, said.Keys, round, d) == {};
      }
    }
  }

  /** Whichever most-reported digest is taken for the quorum, all peers match it exactly when no two of
      them differ. */
  lemma AgreeIsNoDivergence<P(!new)>(said: Reports<P>, round: nat, quorum: nat, peers: map<P, PeerFact>, agree: bool)
    requires Votes(said, round, quorum) > 0
    requires forall p :: p in peers <==> Reported(said, p, round)
    requires agree <==> forall p :: p in peers && Reported(said, p, round) ==> said[p][round] == quorum
    ensures agree <==> !Diverges(said, round)
  {
    var voters := Voters(said, said.Keys, round, quorum);
    assert voters != {};
    var v :| v in voters;
    assert Reported(said, v, round) && said[v][round] == quorum;
    if !agree {
      var p :| p in peers && said[p][round] != quorum;
      assert Reported(said, p, round);
    }
  }

  /** The first of the first `n` rounds that diverges, if any does. */
  ghost predicate FirstAmong<P(!new)>(said: Reports<P>, all: seq<nat>, n: nat, first: Option<nat>)
    requires n <= |all|
  {
    match first
    case None => forall k :: 0 <= k < n ==> !Diverges(said, all[k])
    case Some(r) => Diverges(said, r) && exists k :: 0 <= k < n && all[k] == r && forall j :: 0 <= j < k ==>
      !Diverges(said, all[j])
  }

  method JudgeAll<P(==,!new)>(said: Reports<P>, all: seq<nat>)
      returns (rounds: seq<RoundAgreement<P>>, first: Option<nat>)
    requires forall k :: 0 <= k < |all| ==> all[k] in Rounds(said)
    ensures |rounds| == |all| && forall k :: 0 <= k < |all| ==> rounds[k].round == all[k] && RoundOk(said, rounds[k])
    ensures FirstAmong(said, all, |all|, first)
  {
    rounds, first := [], None;
    for i := 0 to |all|
      invariant |rounds| == i && forall k :: 0 <= k < i ==> rounds[k].round == all[k] && RoundOk(said, rounds[k])
      invariant FirstAmong(said, all, i, first)
    {
      var a := JudgeRound(said, all[i]);
      if !a.agree && first.None? {
        first := Some(all[i]);
      }
      rounds := rounds + [a];
    }
  }

  lemma FirstIsLeast<P(!new)>(said: Reports<P>, all: seq<nat>, first: Option<nat>, r: nat)
    requires forall x :: x in all <==> x in Rounds(said)
    requires forall i, j :: 0 <= i < j < |all| ==> all[i] < all[j]
    requires FirstAmong(said, all, |all|, first) && Diverges(said, r)
    ensures first.Some? && first.value <= r
  {
    var p, q :| Reported(said, p, r) && Reported(said, q, r) && said[p][r] != said[q][r];
    assert r in Rounds(said);
    var i :| 0 <= i < |all| && all[i] == r;
    if first.Some? {
      var k :| 0 <= k < |all| && all[k] == first.value && forall j :: 0 <= j < k ==> !Diverges(said, all[j]);
      assert k <= i;
    }
  }

  /** The verdict: the peers in order; every reported round judged, in order; the first divergence is the
      least round in which two reporting peers differ, and is absent exactly when they agree in every round. */
  method PerPeerVerdict(said: Reports<string>) returns (v: PeerVerdict<string>)
    ensures v.peers == InOrder(said.Keys)
    ensures forall i :: 0 <= i < |v.rounds| ==> RoundOk(said, v.rounds[i]) && v.rounds[i].round in Rounds(said)
    ensures forall i, j :: 0 <= i < j < |v.rounds| ==> v.rounds[i].round < v.rounds[j].round
    ensures |v.rounds| == |Rounds(said)|
    ensures v.firstDivergence.Some? ==> Diverges(said, v.firstDivergence.value)
    ensures forall r: nat :: Diverges(said, r) ==> v.firstDivergence.Some? && v.firstDivergence.value <= r
    ensures v.agree <==> v.firstDivergence.None?
  {
    var peers := IterateNames(said.Keys);
    var all := IterateNumbers(Rounds(said));
    var rounds, first := JudgeAll(said, all);
    forall r: nat | Diverges(said, r) ensures first.Some? && first.value <= r {
      FirstIsLeast(said, all, first, r);
    }
    v := PeerVerdict(peers, rounds, first, first.None?);
  }
}
