/** What the daemons owe each other along every run: nobody is forgotten, questions are answered, only the right leader
    is told to quit, and bids are recorded as they happen. */
module TempoPromises {
  import opened TempoNode
  import opened TempoElection
  import opened TempoRuns
  import opened TempoEpisodes
  import opened TempoStays
  import opened Seqs

  // ---- nobody is forgotten ------------------------------------------------------------------------------------

  /** Messages come from other nodes of the network. */
  ghost predicate Senders(s: System)
    requires WellFormed(s)
  {
    forall j, m | 0 <= j < |s.inbox| && m in s.inbox[j] :: m.from < |s.inbox| && m.from != j
  }

  lemma SendersKept(s: System, e: Event)
    requires WellFormed(s) && Enabled(s, e) && Senders(s)
    ensures Senders(Next(s, e))
  {
    var r := Next(s, e);
    var taken := if e.Take? then s.inbox[e.i := s.inbox[e.i] - multiset{e.m}] else s.inbox;
    InboxStep(s, e);
    forall j, m | 0 <= j < |r.inbox| && m in r.inbox[j]
      ensures m.from < |r.inbox| && m.from != j
    {
      if j != e.i {
        PostCounts(taken, e.i, React(s, e).1, j, m);
      }
      assert m in s.inbox[j] || (m.from == e.i && j != e.i);
    }
  }

  lemma {:induction false} AlwaysFromOthers(n: nat, es: seq<Event>, i: nat)
    requires Runs(n, es) && i < n
    ensures Senders(Reach(n, es))
    ensures forall m | m in InStay(n, es, i) :: m.from < n && m.from != i
  {
    if es != [] {
      var before, e := es[..|es| - 1], es[|es| - 1];
      AlwaysFromOthers(n, before, i);
      SendersKept(Reach(n, before), e);
    }
  }

  /** In the FOLLOWER state, announced, or in the ACCEPT state. */
  predicate Following(nd: Node) {
    nd.begun && (nd.state.Follower? || nd.state.Accept?)
  }

  /** The leader lists the follower, or will as soon as the messages between them have been taken. */
  predicate Enrolled(s: System, a: nat, b: nat)
    requires WellFormed(s) && a < |s.nodes| && b < |s.nodes|
  {
    || b in s.nodes[a].followers
    || Message(FOLLOWERUP, b) in s.inbox[a]
    || Message(LEADERUP, a) in s.inbox[b]
  }

  predicate RollCall(s: System)
    requires WellFormed(s)
  {
    forall a, b | 0 <= a < |s.nodes| && 0 <= b < |s.nodes| && a != b ::
      InOffice(s.nodes[a]) && Following(s.nodes[b]) ==> Enrolled(s, a, b)
  }

  lemma WasFollowing(s: System, e: Event, b: nat)
    requires WellFormed(s) && Enabled(s, e) && b < |s.nodes| && Following(Next(s, e).nodes[b])
    ensures Following(s.nodes[b]) || (e == Open(b) && React(s, e).1 == [ToAll(FOLLOWERUP)])
  {
  }

  /** A leader that stays in office strikes nobody off, and puts on its list whoever's FOLLOWERUP it takes. */
  lemma StaysListed(s: System, e: Event, a: nat, b: nat)
    requires WellFormed(s) && Enabled(s, e) && a < |s.nodes| && InOffice(s.nodes[a]) && InOffice(Next(s, e).nodes[a])
    requires b in s.nodes[a].followers || e == Take(a, Message(FOLLOWERUP, b))
    ensures b in Next(s, e).nodes[a].followers
  {
    if e.i == a && e.Take? {
      LeaderJoins(s.nodes[a], e.m);
    }
  }

  /** A follower answers an announcement. */
  lemma AnswersLeader(s: System, a: nat, b: nat)
    requires WellFormed(s) && Enabled(s, Take(b, Message(LEADERUP, a))) && Following(s.nodes[b])
    ensures React(s, Take(b, Message(LEADERUP, a))).1 == [To(FOLLOWERUP, a)]
  {
  }

  lemma EnrolledKept(s: System, e: Event, a: nat, b: nat)
    requires WellFormed(s) && Enabled(s, e) && RollCall(s) && a < |s.nodes| && b < |s.nodes| && a != b
    requires InOffice(Next(s, e).nodes[a]) && Following(Next(s, e).nodes[b])
    ensures Enrolled(Next(s, e), a, b)
  {
    WasInOffice(s, e, a);
    WasFollowing(s, e, b);
    if e == Open(a) {
      Delivered(s, e, 0, b);
    } else if !Following(s.nodes[b]) {
      Delivered(s, e, 0, a);
    } else {
      assert Enrolled(s, a, b);
      if b in s.nodes[a].followers || e == Take(a, Message(FOLLOWERUP, b)) {
        StaysListed(s, e, a, b);
      } else if Message(FOLLOWERUP, b) in s.inbox[a] {
        StaysPending(s, e, a, Message(FOLLOWERUP, b));
      } else if e == Take(b, Message(LEADERUP, a)) {
        AnswersLeader(s, a, b);
        Delivered(s, e, 0, a);
      } else {
        StaysPending(s, e, b, Message(LEADERUP, a));
      }
    }
  }

  lemma RollCallKept(s: System, e: Event)
    requires WellFormed(s) && Enabled(s, e) && RollCall(s)
    ensures RollCall(Next(s, e))
  {
    var r := Next(s, e);
    forall a, b | 0 <= a < |r.nodes| && 0 <= b < |r.nodes| && a != b && InOffice(r.nodes[a]) && Following(r.nodes[b])
      ensures Enrolled(r, a, b)
    {
      EnrolledKept(s, e, a, b);
    }
  }

  lemma {:induction false} AlwaysEnrolled(n: nat, es: seq<Event>)
    requires Runs(n, es)
    ensures RollCall(Reach(n, es))
  {
    if es != [] {
      AlwaysEnrolled(n, es[..|es| - 1]);
      RollCallKept(Reach(n, es[..|es| - 1]), es[|es| - 1]);
    }
  }

  /** In every reachable state a leader lists exactly the senders of the FOLLOWERUPs it has taken since it entered
      LEADER, each once, in the order of first arrival; they are other nodes of the network. */
  lemma LeaderListsFollowers(n: nat, es: seq<Event>, a: nat)
    requires Runs(n, es) && a < n && Reach(n, es).nodes[a].state.Leader?
    ensures Lists(Reach(n, es).nodes[a].followers, InStay(n, es, a))
    ensures forall f | f in Reach(n, es).nodes[a].followers :: f < n && f != a
  {
    NotesTell(n, es, a);
    RosterLists(InStay(n, es, a));
    AlwaysFromOthers(n, es, a);
  }

  /** And once the two have read each other's announcement and answer, a leader in office lists every follower. */
  lemma FollowersListed(n: nat, es: seq<Event>, a: nat, b: nat)
    requires Runs(n, es) && a < n && b < n && a != b
    requires InOffice(Reach(n, es).nodes[a]) && Following(Reach(n, es).nodes[b])
    requires Message(FOLLOWERUP, b) !in Reach(n, es).inbox[a] && Message(LEADERUP, a) !in Reach(n, es).inbox[b]
    ensures b in Reach(n, es).nodes[a].followers && Message(FOLLOWERUP, b) in InStay(n, es, a)
  {
    AlwaysEnrolled(n, es);
    assert Enrolled(Reach(n, es), a, b);
    NotesTell(n, es, a);
    RosterHeard(InStay(n, es, a), b);
  }

  lemma RosterHeard(q: seq<Message>, f: nat)
    ensures f in Roster(q) <==> Message(FOLLOWERUP, f) in q
  {
    RosterLists(q);
  }

  // ---- requests are answered ----------------------------------------------------------------------------------

  /** Waiting for leaders to make themselves known. */
  predicate Asking(nd: Node) {
    nd.begun && (nd.state.Start? || nd.state.Conflict?)
  }

  /** The question is waiting to be taken, or the answer is. */
  predicate AnswerPending(s: System, a: nat, b: nat)
    requires WellFormed(s) && a < |s.nodes| && b < |s.nodes|
  {
    || (s.nodes[b].state.Start? && Message(LEADERREQ, b) in s.inbox[a])
    || (s.nodes[b].state.Conflict? && Message(RESOLVE, b) in s.inbox[a])
    || Message(LEADERACK, a) in s.inbox[b]
  }

  lemma AnswerStaysPending(s: System, e: Event, a: nat, b: nat)
    requires WellFormed(s) && Enabled(s, e) && a < |s.nodes| && b < |s.nodes| && a != b
    requires InOffice(s.nodes[a]) && InOffice(Next(s, e).nodes[a]) && Asking(Next(s, e).nodes[b])
    requires e == Open(b) || (Asking(s.nodes[b]) && AnswerPending(s, a, b))
    ensures AnswerPending(Next(s, e), a, b)
  {
    StillAsking(s, e, b);
    if e == Open(b) {
      Delivered(s, e, 0, a);
    } else {
      var question := Message(if s.nodes[b].state.Start? then LEADERREQ else RESOLVE, b);
      if Message(LEADERACK, a) in s.inbox[b] {
        StaysPending(s, e, b, Message(LEADERACK, a));
      } else if e == Take(a, question) {
        AnswersQuestion(s, a, question);
        Delivered(s, e, 0, b);
      } else {
        StaysPending(s, e, a, question);
      }
    }
  }

  lemma StillAsking(s: System, e: Event, b: nat)
    requires WellFormed(s) && Enabled(s, e) && b < |s.nodes| && Asking(Next(s, e).nodes[b])
    ensures Next(s, e).nodes[b].state == s.nodes[b].state && !(e.Take? && e.i == b && e.m.signal.LEADERACK?)
    ensures e == Open(b) ==> React(s, e).1 == [ToAll(if s.nodes[b].state.Start? then LEADERREQ else RESOLVE)]
  {
  }

  lemma AnswersQuestion(s: System, a: nat, m: Message)
    requires WellFormed(s) && Enabled(s, Take(a, m)) && InOffice(s.nodes[a])
    requires m.signal.LEADERREQ? || m.signal.RESOLVE?
    ensures React(s, Take(a, m)).1 == [To(LEADERACK, m.from)]
  {
  }

  /** After the first r events of the run a is in office and b is waiting for an answer. */
  ghost predicate InOfficeAsked(n: nat, es: seq<Event>, r: nat, a: nat, b: nat)
    requires r <= |es| && a < n && b < n
  {
    Runs(n, es[..r]) && InOffice(Reach(n, es[..r]).nodes[a]) && Asking(Reach(n, es[..r]).nodes[b])
  }

  /** So it is after every event from p on, up to the q-th. */
  ghost predicate AskedThroughout(n: nat, es: seq<Event>, p: nat, q: nat, a: nat, b: nat)
    requires q <= |es| && a < n && b < n
  {
    forall r | p < r <= q :: InOfficeAsked(n, es, r, a, b)
  }

  /** A node that starts, or that settles a conflict, hears of every leader in office: from its LEADERREQ or RESOLVE on,
      while the one stays in office and the other waits, the question or the LEADERACK is pending. */
  lemma {:induction false} QuestionAnswered(n: nat, es: seq<Event>, p: nat, q: nat, a: nat, b: nat)
    requires Runs(n, es) && p < q <= |es| && a < n && b < n && a != b && es[p] == Open(b)
    requires AskedThroughout(n, es, p, q, a, b)
    ensures PendingAt(n, es, q, a, b)
    decreases q
  {
    AskedNow(n, es, p, q, a, b);
    if q > p + 1 {
      AskedBefore(n, es, p, q, a, b);
      QuestionAnswered(n, es, p, q - 1, a, b);
    }
    PendingStep(n, es, q - 1, q, a, b);
  }

  lemma AskedNow(n: nat, es: seq<Event>, p: nat, q: nat, a: nat, b: nat)
    requires p < q <= |es| && a < n && b < n && AskedThroughout(n, es, p, q, a, b)
    ensures InOfficeAsked(n, es, q, a, b)
  {
  }

  lemma AskedBefore(n: nat, es: seq<Event>, p: nat, q: nat, a: nat, b: nat)
    requires p + 1 < q <= |es| && a < n && b < n && AskedThroughout(n, es, p, q, a, b)
    ensures AskedThroughout(n, es, p, q - 1, a, b) && InOfficeAsked(n, es, q - 1, a, b)
  {
  }

  ghost predicate PendingAt(n: nat, es: seq<Event>, r: nat, a: nat, b: nat)
    requires r <= |es| && a < n && b < n
  {
    Runs(n, es[..r]) && AnswerPending(Reach(n, es[..r]), a, b)
  }

  lemma PendingStep(n: nat, es: seq<Event>, r: nat, q: nat, a: nat, b: nat)
    requires Runs(n, es) && q == r + 1 <= |es| && a < n && b < n && a != b && InOfficeAsked(n, es, q, a, b)
    requires es[r] == Open(b) || (InOfficeAsked(n, es, r, a, b) && PendingAt(n, es, r, a, b))
    ensures PendingAt(n, es, q, a, b)
  {
    Prefix(n, es, r);
    WasInOffice(Reach(n, es[..r]), es[r], a);
    AnswerStaysPending(Reach(n, es[..r]), es[r], a, b);
  }

  // ---- the leader heard first ---------------------------------------------------------------------------------

  /** Event p is node i leaving START at the LEADERACK of this leader. */
  ghost predicate HeardAt(n: nat, es: seq<Event>, p: nat, i: nat, leader: nat)
    requires Runs(n, es) && p < |es| && i < n
  {
    Prefix(n, es, p);
    es[p] == Take(i, Message(LEADERACK, leader)) && Reach(n, es[..p]).nodes[i].state.Start?
  }

  lemma {:induction false} HeardInStart(n: nat, es: seq<Event>, i: nat) returns (p: nat)
    requires Runs(n, es) && i < n && Reach(n, es).nodes[i].state.Consistency?
    ensures p < |es| && HeardAt(n, es, p, i, Reach(n, es).nodes[i].firstLeader)
  {
    var before, e := es[..|es| - 1], es[|es| - 1];
    WasConsistent(Reach(n, before), e, i);
    if Reach(n, before).nodes[i].state.Consistency? {
      p := HeardInStart(n, before, i);
      assert before[..p] == es[..p];
    } else {
      p := |es| - 1;
    }
  }

  lemma WasConsistent(s: System, e: Event, i: nat)
    requires WellFormed(s) && Enabled(s, e) && i < |s.nodes| && Next(s, e).nodes[i].state.Consistency?
    ensures var leader := Next(s, e).nodes[i].firstLeader;
            || (s.nodes[i].state.Consistency? && s.nodes[i].firstLeader == leader)
            || (s.nodes[i].state.Start? && e == Take(i, Message(LEADERACK, leader)))
  {
  }

  /** A second LEADERACK makes the node tell one leader to quit, the one whose LEADERACK had ended its START. */
  lemma SecondAckQuitsFirst(n: nat, es: seq<Event>, e: Event) returns (p: nat, leader: nat)
    requires Runs(n, es) && Enabled(Reach(n, es), e) && e.Take? && e.m.signal.LEADERACK?
    requires Reach(n, es).nodes[e.i].state.Consistency?
    ensures p < |es| && HeardAt(n, es, p, e.i, leader) && leader < n && leader != e.i
    ensures Message(QUIT, e.i) in Next(Reach(n, es), e).inbox[leader]
    ensures forall j, m | 0 <= j < n && j != e.i && !(j == leader && m == Message(QUIT, e.i)) ::
              Next(Reach(n, es), e).inbox[j][m] == Reach(n, es).inbox[j][m]
  {
    p := HeardInStart(n, es, e.i);
    leader := Reach(n, es).nodes[e.i].firstLeader;
    HeardFromOther(n, es, p, e.i, leader);
    forall j, m | 0 <= j < n && j != e.i
      ensures Next(Reach(n, es), e).inbox[j][m]
           == Reach(n, es).inbox[j][m] + if m == Message(QUIT, e.i) && j == leader then 1 else 0
    {
      OneQuit(n, es, e, leader, j, m);
    }
  }

  lemma HeardFromOther(n: nat, es: seq<Event>, p: nat, i: nat, leader: nat)
    requires Runs(n, es) && p < |es| && i < n && HeardAt(n, es, p, i, leader)
    ensures leader < n && leader != i
  {
    Prefix(n, es, p);
    AlwaysFromOthers(n, es[..p], i);
  }

  lemma OneQuit(n: nat, es: seq<Event>, e: Event, leader: nat, j: nat, m: Message)
    requires Runs(n, es) && Enabled(Reach(n, es), e) && e.Take? && e.m.signal.LEADERACK? && j < n && j != e.i
    requires Reach(n, es).nodes[e.i].state.Consistency? && leader == Reach(n, es).nodes[e.i].firstLeader
    ensures Next(Reach(n, es), e).inbox[j][m]
         == Reach(n, es).inbox[j][m] + if m == Message(QUIT, e.i) && j == leader then 1 else 0
  {
    TrafficExactly(n, es, e, j, m);
    ReachesFirst(leader, InStay(n, es, e.i), e, m.signal, j);
  }

  lemma ReachesFirst(leader: nat, q: seq<Message>, e: Event, signal: Signal, j: nat)
    requires e.Take? && e.m.signal.LEADERACK?
    ensures Reaches(Consistency, leader, q, e, signal, j) <==> signal.QUIT? && j == leader
  {
  }

  // ---- the record of a bid ------------------------------------------------------------------------------------

  /** Event p starts node i's bid for leadership, and from then on it has not given up. */
  ghost predicate BidsSince(n: nat, es: seq<Event>, p: nat, i: nat)
    requires p < |es| && i < n
  {
    && Runs(n, es[..p]) && Runs(n, es[..p + 1])
    && !Contending(Reach(n, es[..p]).nodes[i])
    && forall r | p < r <= |es| :: ContendsAt(n, es, r, i)
  }

  ghost predicate ContendsAt(n: nat, es: seq<Event>, r: nat, i: nat)
    requires r <= |es| && i < n
  {
    Runs(n, es[..r]) && Contending(Reach(n, es[..r]).nodes[i])
  }

  /** A contender's `since` is the time at which its present bid began, and `elected` whether it began as a
      candidacy. */
  lemma {:induction false} BidRecorded(n: nat, es: seq<Event>, i: nat) returns (p: nat)
    requires Runs(n, es) && i < n && Contending(Reach(n, es).nodes[i])
    ensures p < |es| && BidsSince(n, es, p, i)
    ensures var nd := Reach(n, es).nodes[i];
            nd.since == p + 1 && (nd.elected <==> Reach(n, es[..p + 1]).nodes[i].state.Candidate?)
  {
    var before := es[..|es| - 1];
    NowIs(n, before);
    BidKept(Reach(n, before), es[|es| - 1], i);
    EmptyEnds(es);
    if Contending(Reach(n, before).nodes[i]) {
      p := BidRecorded(n, before, i);
      BidGoesOn(n, es, p, i);
    } else {
      p := |es| - 1;
      BidBegins(n, es, i);
    }
  }

  lemma BidKept(s: System, e: Event, i: nat)
    requires WellFormed(s) && Enabled(s, e) && i < |s.nodes| && Contending(Next(s, e).nodes[i])
    ensures var (nd, r) := (s.nodes[i], Next(s, e).nodes[i]);
            if Contending(nd) then r.since == nd.since && r.elected == nd.elected
            else r.since == s.now && (r.elected <==> r.state.Candidate?)
  {
    if e.i == i {
      BidStep(s.nodes[i], e, s.now);
    }
  }

  lemma BidBegins(n: nat, es: seq<Event>, i: nat)
    requires es != [] && i < n && Runs(n, es) && !Contending(Reach(n, es[..|es| - 1]).nodes[i])
    requires Contending(Reach(n, es).nodes[i])
    ensures BidsSince(n, es, |es| - 1, i) && es[..|es|] == es
  {
    assert es[..|es|] == es;
  }

  lemma {:induction false} NowIs(n: nat, es: seq<Event>)
    requires Runs(n, es)
    ensures Reach(n, es).now == |es| + 1
  {
    if es != [] {
      NowIs(n, es[..|es| - 1]);
    }
  }

  lemma BidStep(nd: Node, e: Event, now: nat)
    ensures var r := Act(nd, e, now).0;
            && (Contending(nd) && Contending(r) ==> r.since == nd.since && r.elected == nd.elected)
            && (!Contending(nd) && Contending(r) && Can(nd, e) ==>
                  r.since == now && (r.elected <==> r.state.Candidate?))
  {
  }

  lemma BidGoesOn(n: nat, es: seq<Event>, p: nat, i: nat)
    requires es != [] && p < |es| - 1 && i < n && BidsSince(n, es[..|es| - 1], p, i)
    requires Runs(n, es) && Contending(Reach(n, es).nodes[i])
    ensures BidsSince(n, es, p, i) && es[..p + 1] == es[..|es| - 1][..p + 1]
  {
    var before := es[..|es| - 1];
    assert forall r | 0 <= r <= |before| :: before[..r] == es[..r];
    assert es[..|es|] == es;
    forall r | p < r <= |es|
      ensures ContendsAt(n, es, r, i)
    {
      assert r < |es| ==> ContendsAt(n, before, r, i);
    }
  }

  ghost predicate InOfficeAt(n: nat, es: seq<Event>, r: nat, i: nat)
    requires r <= |es| && i < n
  {
    Runs(n, es[..r]) && InOffice(Reach(n, es[..r]).nodes[i])
  }

  /** A leader in office has been so since the event at which it announced itself, and `announcedAt` is that time. */
  lemma {:induction false} AnnouncementRecorded(n: nat, es: seq<Event>, i: nat) returns (p: nat)
    requires Runs(n, es) && i < n && InOffice(Reach(n, es).nodes[i])
    ensures p < |es| && es[p] == Open(i) && Reach(n, es).nodes[i].announcedAt == p + 1
    ensures forall r | p < r <= |es| :: InOfficeAt(n, es, r, i)
  {
    var before := es[..|es| - 1];
    NowIs(n, before);
    WasInOffice(Reach(n, before), es[|es| - 1], i);
    EmptyEnds(es);
    if es[|es| - 1] == Open(i) {
      p := |es| - 1;
      OfficeGoesOn(n, es, before, p, i);
    } else {
      p := AnnouncementRecorded(n, before, i);
      OfficeGoesOn(n, es, before, p, i);
    }
  }

  lemma OfficeGoesOn(n: nat, es: seq<Event>, before: seq<Event>, p: nat, i: nat)
    requires es != [] && before == es[..|es| - 1] && p <= |before| && i < n
    requires Runs(n, es) && InOffice(Reach(n, es).nodes[i])
    requires forall r | p < r <= |before| :: InOfficeAt(n, before, r, i)
    ensures forall r | p < r <= |es| :: InOfficeAt(n, es, r, i)
  {
    assert forall r | 0 <= r <= |before| :: before[..r] == es[..r];
    assert es[..|es|] == es;
    forall r | p < r <= |es|
      ensures InOfficeAt(n, es, r, i)
    {
      assert r < |es| ==> InOfficeAt(n, before, r, i);
    }
  }

  // ---- left alone ---------------------------------------------------------------------------------------------

  /** How many of the events are node i leaving a state. */
  function Departures(es: seq<Event>, i: nat): nat {
    if es == [] then 0 else Departures(es[..|es| - 1], i) + if es[|es| - 1] == Depart(i) then 1 else 0
  }

  /** A node that takes no message stays in START until its first timeout, in NOLEADER until its second, and then leads
      for good. */
  lemma {:induction false} LeftAlone(n: nat, es: seq<Event>, i: nat)
    requires Runs(n, es) && i < n && forall k | 0 <= k < |es| :: !(es[k].Take? && es[k].i == i)
    ensures var d := Departures(es, i);
            && d <= 2
            && Reach(n, es).nodes[i].state == (if d == 0 then Start else if d == 1 then NoLeader else Leader)
            && InStay(n, es, i) == []
  {
    if es != [] {
      var before, e := es[..|es| - 1], es[|es| - 1];
      assert forall k | 0 <= k < |before| :: before[k] == es[k];
      LeftAlone(n, before, i);
      if e.i == i {
        EventLeads(n, before, e);
      }
    }
  }
}
