/** What holds in every state the daemons can reach, and along every run. */
module TempoRuns {
  import opened TempoNode
  import opened TempoElection

  ghost predicate Runs(n: nat, es: seq<Event>)
    decreases |es|, 0
  {
    es == [] || (Runs(n, es[..|es| - 1]) && Enabled(Reach(n, es[..|es| - 1]), es[|es| - 1]))
  }

  /** The system after these events, all of them enabled in turn. */
  ghost function Reach(n: nat, es: seq<Event>): (s: System)
    requires Runs(n, es)
    ensures WellFormed(s) && |s.nodes| == n
    decreases |es|, 1
  {
    if es == [] then Initial(n) else Next(Reach(n, es[..|es| - 1]), es[|es| - 1])
  }

  lemma {:induction false} AlwaysPending(n: nat, es: seq<Event>)
    requires Runs(n, es)
    ensures Stamped(Reach(n, es)) && Duels(Reach(n, es)) && Rivalry(Reach(n, es))
  {
    if es != [] {
      var before, e := es[..|es| - 1], es[|es| - 1];
      AlwaysPending(n, before);
      StampedKept(Reach(n, before), e);
      DuelsKept(Reach(n, before), e);
      RivalryKept(Reach(n, before), e);
    }
  }

  /** Duelling leaders cannot go unnoticed: when nothing is on its way, at most one leader is in office. */
  lemma QuietHasOneLeader(n: nat, es: seq<Event>, a: nat, b: nat)
    requires Runs(n, es) && a < n && b < n
    requires forall i | 0 <= i < n :: Reach(n, es).inbox[i] == multiset{}
    requires InOffice(Reach(n, es).nodes[a]) && InOffice(Reach(n, es).nodes[b])
    ensures a == b
  {
    AlwaysPending(n, es);
    assert !DuelPending(Reach(n, es), a, b) && !DuelPending(Reach(n, es), b, a);
  }

  // ---- elections that are given time ----------------------------------------------------------------------

  predicate Holding(nd: Node) {
    nd.state.Leader? && nd.exit.Stays?
  }

  /** No other contender's bid is as old as that of an elected leader. */
  predicate ElectedOldest(s: System)
    requires WellFormed(s)
  {
    forall a, b | 0 <= a < |s.nodes| && 0 <= b < |s.nodes| && a != b ::
      Contending(s.nodes[a]) && Holding(s.nodes[b]) && s.nodes[b].elected ==> s.nodes[b].since < s.nodes[a].since
  }

  /** Node a's standing bid is no newer than b's, and the refusal it owes b is still on its way. */
  predicate StillOwed(s: System, a: nat, b: nat)
    requires WellFormed(s) && a < |s.nodes| && b < |s.nodes|
  {
    a != b && Contending(s.nodes[a]) && s.nodes[a].since <= s.nodes[b].since && RefusalPending(s, a, b)
  }

  /** A candidate's time is up before a refusal owed to it has been asked for, sent or read. */
  predicate Premature(s: System, e: Event)
    requires WellFormed(s) && Enabled(s, e)
  {
    e.Depart? && s.nodes[e.i].state.Candidate? && !s.nodes[e.i].marked
    && exists a | 0 <= a < |s.nodes| :: StillOwed(s, a, e.i)
  }

  /** Every candidate is on the way to being elected. */
  predicate Standing(s: System)
    requires WellFormed(s)
  {
    forall b | 0 <= b < |s.nodes| :: s.nodes[b].state.Candidate? ==> s.nodes[b].elected
  }

  lemma StandingKept(s: System, e: Event)
    requires WellFormed(s) && Enabled(s, e) && Standing(s)
    ensures Standing(Next(s, e))
  {
    var r := Next(s, e);
    forall b | 0 <= b < |r.nodes| && r.nodes[b].state.Candidate?
      ensures r.nodes[b].elected
    {
      StillElected(s, e, b);
    }
  }

  lemma StillElected(s: System, e: Event, b: nat)
    requires WellFormed(s) && Enabled(s, e) && b < |s.nodes| && Next(s, e).nodes[b].state.Candidate?
    ensures e == Depart(b) || s.nodes[b].state.Candidate?
    ensures Next(s, e).nodes[b].elected == (e == Depart(b) || s.nodes[b].elected)
  {
    if e.i == b {
      StandsOn(s.nodes[b], e, s.now);
    }
  }

  lemma StandsOn(nd: Node, e: Event, now: nat)
    requires Can(nd, e) && Act(nd, e, now).0.state.Candidate?
    ensures e.Depart? || nd.state.Candidate?
    ensures Act(nd, e, now).0.elected == (e.Depart? || nd.elected)
  {
  }

  lemma WasHolding(s: System, e: Event, b: nat)
    requires WellFormed(s) && Enabled(s, e) && b < |s.nodes|
    requires Holding(Next(s, e).nodes[b]) && Next(s, e).nodes[b].elected
    ensures s.nodes[b].since == Next(s, e).nodes[b].since
    ensures || (Holding(s.nodes[b]) && s.nodes[b].elected)
            || (e == Depart(b) && s.nodes[b].state.Candidate? && !s.nodes[b].marked)
  {
  }

  lemma OldestUnlessPremature(s: System, e: Event, a: nat, b: nat)
    requires WellFormed(s) && Enabled(s, e) && Stamped(s) && Rivalry(s) && ElectedOldest(s) && !Premature(s, e)
    requires a < |s.nodes| && b < |s.nodes| && a != b
    requires var r := Next(s, e); Contending(r.nodes[a]) && Holding(r.nodes[b]) && r.nodes[b].elected
    ensures Next(s, e).nodes[b].since < Next(s, e).nodes[a].since
  {
    WasHolding(s, e, b);
    WasContending(s, e, a);
    if !Holding(s.nodes[b]) {
      assert !StillOwed(s, a, b);
    }
  }

  /** A candidate that leaves prematurely takes office beside a contender with an older bid. */
  lemma PrematureClashes(s: System, e: Event, a: nat)
    requires WellFormed(s) && Enabled(s, e) && Standing(s) && e.Depart? && a < |s.nodes|
    requires s.nodes[e.i].state.Candidate? && !s.nodes[e.i].marked && StillOwed(s, a, e.i)
    ensures !ElectedOldest(Next(s, e))
  {
    var r := Next(s, e);
    assert Holding(r.nodes[e.i]) && r.nodes[e.i].elected && r.nodes[e.i].since == s.nodes[e.i].since;
    assert r.nodes[a] == s.nodes[a];
  }

  /** One step keeps elected leaders oldest exactly when it is not premature. */
  lemma OldestExactly(s: System, e: Event)
    requires WellFormed(s) && Enabled(s, e) && Stamped(s) && Rivalry(s) && Standing(s) && ElectedOldest(s)
    ensures ElectedOldest(Next(s, e)) <==> !Premature(s, e)
  {
    var r := Next(s, e);
    if Premature(s, e) {
      var a :| 0 <= a < |s.nodes| && StillOwed(s, a, e.i);
      PrematureClashes(s, e, a);
    } else {
      forall a, b | 0 <= a < |r.nodes| && 0 <= b < |r.nodes| && a != b && Contending(r.nodes[a])
                    && Holding(r.nodes[b]) && r.nodes[b].elected
        ensures r.nodes[b].since < r.nodes[a].since
      {
        OldestUnlessPremature(s, e, a, b);
      }
    }
  }

  lemma {:induction false} AlwaysStanding(n: nat, es: seq<Event>)
    requires Runs(n, es)
    ensures Standing(Reach(n, es))
  {
    if es != [] {
      AlwaysStanding(n, es[..|es| - 1]);
      StandingKept(Reach(n, es[..|es| - 1]), es[|es| - 1]);
    }
  }

  /** No event of the run was premature. */
  ghost predicate Timely(n: nat, es: seq<Event>)
    requires Runs(n, es)
  {
    es == [] || (Timely(n, es[..|es| - 1]) && !Premature(Reach(n, es[..|es| - 1]), es[|es| - 1]))
  }

  /** In every state of the run an elected leader's bid is older than that of every other contender. */
  ghost predicate AlwaysOldest(n: nat, es: seq<Event>)
    requires Runs(n, es)
  {
    ElectedOldest(Reach(n, es)) && (es == [] || AlwaysOldest(n, es[..|es| - 1]))
  }

  /** Elections never produce a rival to an older bid exactly in the runs without a premature timeout. */
  lemma {:induction false} TimelyElections(n: nat, es: seq<Event>)
    requires Runs(n, es)
    ensures AlwaysOldest(n, es) <==> Timely(n, es)
  {
    if es != [] {
      var before, e := es[..|es| - 1], es[|es| - 1];
      TimelyElections(n, before);
      if Timely(n, before) {
        AlwaysPending(n, before);
        AlwaysStanding(n, before);
        OldestExactly(Reach(n, before), e);
      }
    }
  }

  /** Hence two leaders in office by election mean that some candidate's time was up too early. */
  lemma OneElectedLeader(n: nat, es: seq<Event>, a: nat, b: nat)
    requires Runs(n, es) && a < n && b < n
    requires Holding(Reach(n, es).nodes[a]) && Reach(n, es).nodes[a].elected
    requires Holding(Reach(n, es).nodes[b]) && Reach(n, es).nodes[b].elected
    ensures Timely(n, es) ==> a == b
  {
    TimelyElections(n, es);
  }

  /** Everything the candidate asked of this node has been taken and answered, and every answer has been read. */
  predicate Settled(s: System, a: nat, b: nat)
    requires WellFormed(s) && a < |s.nodes| && b < |s.nodes|
  {
    Message(ELECTION, b) !in s.inbox[a] && Message(REFUSE, a) !in s.inbox[b] && Message(QUIT, a) !in s.inbox[b]
  }

  /** It is enough that the bid is settled with those who stood before it; bystanders may still have the question
      before them. An unmarked candidate is premature exactly when it is not. */
  lemma SettledIsTimely(n: nat, es: seq<Event>, b: nat)
    requires Runs(n, es) && b < n && Enabled(Reach(n, es), Depart(b))
    requires Reach(n, es).nodes[b].state.Candidate? && !Reach(n, es).nodes[b].marked
    ensures var s := Reach(n, es);
            Premature(s, Depart(b)) <==>
            exists a | 0 <= a < n :: a != b && Contending(s.nodes[a]) && s.nodes[a].since <= s.nodes[b].since
                                     && !Settled(s, a, b)
  {
    var s := Reach(n, es);
    forall a | 0 <= a < n
      ensures StillOwed(s, a, b) <==>
              a != b && Contending(s.nodes[a]) && s.nodes[a].since <= s.nodes[b].since && !Settled(s, a, b)
    {
    }
  }

  lemma OneMore(n: nat, es: seq<Event>, e: Event)
    requires Runs(n, es) && Enabled(Reach(n, es), e)
    ensures Runs(n, es + [e]) && Reach(n, es + [e]) == Next(Reach(n, es), e)
  {
    assert (es + [e])[..|es|] == es;
  }

  /** Two nodes in these states after this run. */
  ghost predicate Pair(es: seq<Event>, a: Node, b: Node) {
    Runs(2, es) && Reach(2, es).nodes == [a, b]
  }

  lemma Step0(es: seq<Event>, a: Node, b: Node, e: Event) returns (r: seq<Event>)
    requires Pair(es, a, b) && Enabled(Reach(2, es), e) && e.i == 0
    ensures r == es + [e] && Pair(r, React(Reach(2, es), e).0, b) && Reach(2, r) == Next(Reach(2, es), e)
  {
    r := es + [e];
    OneMore(2, es, e);
  }

  lemma Step1(es: seq<Event>, a: Node, b: Node, e: Event) returns (r: seq<Event>)
    requires Pair(es, a, b) && Enabled(Reach(2, es), e) && e.i == 1
    ensures r == es + [e] && Pair(r, a, React(Reach(2, es), e).0) && Reach(2, r) == Next(Reach(2, es), e)
  {
    r := es + [e];
    OneMore(2, es, e);
  }

  /** Both have asked for a leader, and neither has read the other's request. */
  ghost predicate Asked(es: seq<Event>, a: Node, b: Node) {
    Pair(es, a, b) && Message(LEADERREQ, 1) in Reach(2, es).inbox[0] && Message(LEADERREQ, 0) in Reach(2, es).inbox[1]
  }

  lemma BothAsk() returns (es: seq<Event>)
    ensures Asked(es, INITIAL.(begun := true), INITIAL.(begun := true))
  {
    assert Pair([], INITIAL, INITIAL);
    es := Step0([], INITIAL, INITIAL, Open(0));
    Delivered(Reach(2, []), Open(0), 0, 1);
    var s := Reach(2, es);
    es := Step1(es, INITIAL.(begun := true), INITIAL, Open(1));
    Delivered(s, Open(1), 0, 0);
    StaysPending(s, Open(1), 1, Message(LEADERREQ, 0));
  }

  lemma BothWait() returns (es: seq<Event>)
    ensures Asked(es, Enter(INITIAL, NoLeader), Enter(INITIAL, NoLeader))
  {
    var asked := INITIAL.(begun := true);
    es := BothAsk();
    var s := Reach(2, es);
    es := Step0(es, asked, asked, Depart(0));
    StaysPending(s, Depart(0), 0, Message(LEADERREQ, 1));
    StaysPending(s, Depart(0), 1, Message(LEADERREQ, 0));
    s := Reach(2, es);
    es := Step1(es, Enter(INITIAL, NoLeader), asked, Depart(1));
    StaysPending(s, Depart(1), 0, Message(LEADERREQ, 1));
    StaysPending(s, Depart(1), 1, Message(LEADERREQ, 0));
  }

  lemma BothFollow() returns (es: seq<Event>)
    ensures Pair(es, Enter(INITIAL, Follower), Enter(INITIAL, Follower))
  {
    es := BothWait();
    var s := Reach(2, es);
    es := Step0(es, Enter(INITIAL, NoLeader), Enter(INITIAL, NoLeader), Take(0, Message(LEADERREQ, 1)));
    StaysPending(s, Take(0, Message(LEADERREQ, 1)), 1, Message(LEADERREQ, 0));
    es := Step1(es, Enter(INITIAL, Follower), Enter(INITIAL, NoLeader), Take(1, Message(LEADERREQ, 0)));
  }

  /** What a follower becomes when nobody has asked for its vote. */
  lemma Stands(es: seq<Event>, i: nat) returns (nd: Node)
    requires Runs(2, es) && i < 2 && Reach(2, es).nodes[i] == Enter(INITIAL, Follower).(begun := true)
    ensures Enabled(Reach(2, es), Depart(i)) && nd == React(Reach(2, es), Depart(i)).0
    ensures nd.state.Candidate? && !nd.marked && nd.begun && nd.elected && nd.since == Reach(2, es).now
  {
    nd := React(Reach(2, es), Depart(i)).0;
  }

  lemma BothStand() returns (es: seq<Event>, a: Node, b: Node)
    ensures Pair(es, a, b) && a.state.Candidate? && b.state.Candidate? && !a.marked && !b.marked
    ensures a.begun && b.begun && a.elected && b.elected && a.since <= b.since
  {
    var follower := Enter(INITIAL, Follower);
    es := BothFollow();
    es := Step0(es, follower, follower, Open(0));
    es := Step1(es, follower.(begun := true), follower, Open(1));
    a := Stands(es, 0);
    es := Step0(es, follower.(begun := true), follower.(begun := true), Depart(0));
    b := Stands(es, 1);
    es := Step1(es, a, follower.(begun := true), Depart(1));
  }

  /** Time matters: when two candidates time out before reading each other's ELECTION, both are elected. */
  lemma UntimelyElectionsDuel() returns (es: seq<Event>)
    ensures Runs(2, es) && !Timely(2, es)
    ensures es != [] && Premature(Reach(2, es[..|es| - 1]), es[|es| - 1])
    ensures forall i | 0 <= i < 2 :: Holding(Reach(2, es).nodes[i]) && Reach(2, es).nodes[i].elected
  {
    var a, b;
    es, a, b := BothStand();
    es := Step0(es, a, b, Depart(0));
    ghost var before := es;
    es := Step1(es, Enter(a, Leader), b, Depart(1));
    assert es[..|es| - 1] == before;
    AlwaysPending(2, before);
    AlwaysStanding(2, before);
    TooEarly(Reach(2, before));
  }

  /** Two contenders of which the later is about to leave unmarked. */
  lemma TooEarly(s: System)
    requires WellFormed(s) && |s.nodes| == 2 && Enabled(s, Depart(1)) && Rivalry(s)
    requires Holding(s.nodes[0]) && s.nodes[1].state.Candidate? && !s.nodes[1].marked
    requires s.nodes[0].since <= s.nodes[1].since
    ensures Premature(s, Depart(1))
  {
    assert StillOwed(s, 0, 1);
  }

  // ---- one ACCEPT per FOLLOWER episode --------------------------------------------------------------------

  /** Event p of the run is node i taking a message and answering ACCEPT. */
  ghost predicate AcceptsAt(n: nat, es: seq<Event>, p: nat, i: nat)
    requires Runs(n, es) && p < |es|
  {
    Prefix(n, es, p);
    es[p].Take? && es[p].i == i && exists to :: To(ACCEPT, to) in React(Reach(n, es[..p]), es[p]).1
  }

  /** Event p is node i's ACCEPT episode coming to its end. */
  ghost predicate AcceptEndsAt(n: nat, es: seq<Event>, p: nat, i: nat)
    requires Runs(n, es) && p < |es|
  {
    Prefix(n, es, p);
    es[p] == Depart(i) && Reach(n, es[..p]).nodes[i].state.Accept?
  }

  lemma {:induction false} Prefix(n: nat, es: seq<Event>, p: nat)
    requires Runs(n, es) && p <= |es|
    ensures Runs(n, es[..p])
    ensures p < |es| ==> Enabled(Reach(n, es[..p]), es[p])
    ensures p < |es| ==> Runs(n, es[..p + 1]) && Reach(n, es[..p + 1]) == Next(Reach(n, es[..p]), es[p])
    decreases |es|
  {
    if p == |es| {
      assert es[..p] == es;
    } else if p == |es| - 1 {
      assert es[..p + 1] == es;
    } else {
      var before := es[..|es| - 1];
      Prefix(n, before, p);
      assert before[..p] == es[..p] && before[..p + 1] == es[..p + 1];
    }
  }

  /** Pledged to a candidate: the ACCEPT is sent and the ACCEPT episode is not over. */
  predicate Pledged(nd: Node) {
    nd.begun && ((nd.state.Follower? && nd.accepted) || nd.state.Accept?)
  }

  lemma PledgedStep(s: System, e: Event, i: nat)
    requires WellFormed(s) && Enabled(s, e) && i < |s.nodes| && Pledged(s.nodes[i])
    ensures (e == Depart(i) && s.nodes[i].state.Accept?) || Pledged(Next(s, e).nodes[i])
    ensures e.Take? && e.i == i ==> s.nodes[i].state.Accept?
    ensures e.Take? && e.i == i && e.m.signal.ELECTION? ==> React(s, e).1 == [To(REFUSE, e.m.from)]
  {
  }

  lemma AcceptPledges(s: System, e: Event, i: nat, to: nat)
    requires WellFormed(s) && Enabled(s, e) && e.Take? && e.i == i
    requires To(ACCEPT, to) in React(s, e).1
    ensures Pledged(Next(s, e).nodes[i])
  {
  }

  /** Pledged after the first q events of the run. */
  ghost predicate PledgedAt(n: nat, es: seq<Event>, q: nat, i: nat)
    requires q <= |es| && i < n
  {
    Runs(n, es[..q]) && Pledged(Reach(n, es[..q]).nodes[i])
  }

  lemma PledgedAfterAccept(n: nat, es: seq<Event>, p: nat, q: nat, i: nat)
    requires Runs(n, es) && p < |es| && i < n && AcceptsAt(n, es, p, i) && q == p + 1
    ensures PledgedAt(n, es, q, i)
  {
    Prefix(n, es, p);
    var to :| To(ACCEPT, to) in React(Reach(n, es[..p]), es[p]).1;
    AcceptPledges(Reach(n, es[..p]), es[p], i, to);
  }

  lemma PledgedAfterStep(n: nat, es: seq<Event>, p: nat, q: nat, i: nat)
    requires Runs(n, es) && p < |es| && i < n && !AcceptEndsAt(n, es, p, i) && PledgedAt(n, es, p, i) && q == p + 1
    ensures PledgedAt(n, es, q, i)
  {
    Prefix(n, es, p);
    PledgedStep(Reach(n, es[..p]), es[p], i);
  }

  lemma {:induction false} PledgedUntil(n: nat, es: seq<Event>, p: nat, q: nat, i: nat)
    requires Runs(n, es) && p < q <= |es| && i < n && AcceptsAt(n, es, p, i)
    requires forall r | p < r < q :: !AcceptEndsAt(n, es, r, i)
    ensures PledgedAt(n, es, q, i)
    decreases q
  {
    if p == q - 1 {
      PledgedAfterAccept(n, es, p, q, i);
    } else {
      PledgedUntil(n, es, p, q - 1, i);
      PledgedAfterStep(n, es, q - 1, q, i);
    }
  }

  /** A node that has accepted a candidate accepts no other before its ACCEPT episode has come to an end, and
      until then it refuses every ELECTION it takes. */
  lemma OneAcceptPerEpisode(n: nat, es: seq<Event>, p: nat, q: nat, i: nat)
    requires Runs(n, es) && p < q < |es| && i < n && AcceptsAt(n, es, p, i)
    requires forall r | p < r < q :: !AcceptEndsAt(n, es, r, i)
    ensures !AcceptsAt(n, es, q, i)
    ensures Runs(n, es[..q]) && Enabled(Reach(n, es[..q]), es[q])
    ensures es[q].Take? && es[q].i == i && es[q].m.signal.ELECTION? ==>
              React(Reach(n, es[..q]), es[q]).1 == [To(REFUSE, es[q].m.from)]
  {
    Prefix(n, es, q);
    PledgedUntil(n, es, p, q, i);
    PledgedStep(Reach(n, es[..q]), es[q], i);
  }
}
