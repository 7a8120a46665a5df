/** Any number of daemons on a network that loses nothing: each node has a multiset of messages on their way to it
    or waiting in its queue, and every step is one node opening a state, handling one message, or leaving a
    state. All interleavings and delivery orders are allowed. */
module TempoElection {
  import opened TempoNode

  type Inbox = multiset<Message>

  datatype System = System(nodes: seq<Node>, inbox: seq<Inbox>, now: nat)

  datatype Event = Open(i: nat) | Take(i: nat, m: Message) | Depart(i: nat)

  predicate WellFormed(s: System) {
    |s.nodes| == |s.inbox|
  }

  /** One sending by node `from`: a multicast reaches every other node, never the sender. */
  function Post(inbox: seq<Inbox>, from: nat, out: Sending): (r: seq<Inbox>)
    ensures |r| == |inbox|
  {
    seq(|inbox|, j requires 0 <= j < |inbox| =>
      if j != from && (out.ToAll? || out.dest == j) then inbox[j] + multiset{Message(out.signal, from)} else inbox[j])
  }

  function PostAll(inbox: seq<Inbox>, from: nat, outs: seq<Sending>): (r: seq<Inbox>)
    ensures |r| == |inbox|
    decreases |outs|
  {
    if outs == [] then inbox else PostAll(Post(inbox, from, outs[0]), from, outs[1..])
  }

  /** Whether the node itself is ready for the event. */
  predicate Can(nd: Node, e: Event) {
    match e
    case Open(_) => !nd.begun
    case Take(_, _) => Listening(nd)
    case Depart(_) => MayLeave(nd)
  }

  /** What the node does at the event. */
  function Act(nd: Node, e: Event, now: nat): (Node, seq<Sending>) {
    match e
    case Open(_) => Opening(nd, now)
    case Take(_, m) => Handle(nd, m, now)
    case Depart(_) => Leave(nd, now)
  }

  predicate Enabled(s: System, e: Event)
    requires WellFormed(s)
  {
    e.i < |s.nodes| && Can(s.nodes[e.i], e) && (e.Take? ==> e.m in s.inbox[e.i])
  }

  function React(s: System, e: Event): (Node, seq<Sending>)
    requires WellFormed(s) && Enabled(s, e)
  {
    Act(s.nodes[e.i], e, s.now)
  }

  function Next(s: System, e: Event): (r: System)
    requires WellFormed(s) && Enabled(s, e)
    ensures WellFormed(r) && |r.nodes| == |s.nodes|
  {
    var (nd, outs) := React(s, e);
    var taken := if e.Take? then s.inbox[e.i := s.inbox[e.i] - multiset{e.m}] else s.inbox;
    System(s.nodes[e.i := nd], PostAll(taken, e.i, outs), s.now + 1)
  }

  function Initial(n: nat): (s: System)
    ensures WellFormed(s) && |s.nodes| == n
  {
    System(seq(n, _ => INITIAL), seq(n, _ => multiset{}), 1)
  }

  // ---- what the invariants talk about ---------------------------------------------------------------------

  /** In office: announced, and not yet told to go. */
  predicate InOffice(nd: Node) {
    nd.state.Leader? && nd.begun && nd.exit.Stays?
  }

  /** Standing for office or holding it, from CANDIDATE until stepping back or resigning. */
  predicate Contending(nd: Node) {
    nd.state.Candidate? || (nd.state.Leader? && nd.exit.Stays?)
  }

  /** The stamps lie in the past. */
  predicate Stamped(s: System)
    requires WellFormed(s)
  {
    forall i | 0 <= i < |s.nodes| :: s.nodes[i].since < s.now && s.nodes[i].announcedAt < s.now
  }

  /** Between two leaders in office, the later one's announcement or the earlier one's order to quit is pending. */
  predicate DuelPending(s: System, a: nat, b: nat)
    requires WellFormed(s) && a < |s.nodes| && b < |s.nodes|
  {
    Message(LEADERUP, b) in s.inbox[a] || Message(QUIT, a) in s.inbox[b]
  }

  predicate Duels(s: System)
    requires WellFormed(s)
  {
    forall a, b | 0 <= a < |s.nodes| && 0 <= b < |s.nodes| && a != b ::
      InOffice(s.nodes[a]) && InOffice(s.nodes[b]) && s.nodes[a].announcedAt <= s.nodes[b].announcedAt
      ==> DuelPending(s, a, b)
  }

  /** A candidate that came after a standing contender is on its way to being refused. */
  predicate RefusalPending(s: System, a: nat, b: nat)
    requires WellFormed(s) && a < |s.nodes| && b < |s.nodes|
  {
    || Message(ELECTION, b) in s.inbox[a]
    || Message(REFUSE, a) in s.inbox[b]
    || Message(QUIT, a) in s.inbox[b]
    || s.nodes[b].marked
  }

  predicate Rivalry(s: System)
    requires WellFormed(s)
  {
    forall a, b | 0 <= a < |s.nodes| && 0 <= b < |s.nodes| && a != b ::
      Contending(s.nodes[a]) && s.nodes[b].state.Candidate? && s.nodes[a].since <= s.nodes[b].since
      ==> RefusalPending(s, a, b)
  }

  // ---- how messages move ----------------------------------------------------------------------------------

  lemma {:induction false} PostKeeps(inbox: seq<Inbox>, from: nat, outs: seq<Sending>, j: nat, m: Message)
    requires j < |inbox| && m in inbox[j]
    ensures m in PostAll(inbox, from, outs)[j]
    decreases |outs|
  {
    if outs != [] {
      PostKeeps(Post(inbox, from, outs[0]), from, outs[1..], j, m);
    }
  }

  lemma {:induction false} PostDelivers(inbox: seq<Inbox>, from: nat, outs: seq<Sending>, k: nat, j: nat)
    requires k < |outs| && j < |inbox| && j != from && (outs[k].ToAll? || outs[k].dest == j)
    ensures Message(outs[k].signal, from) in PostAll(inbox, from, outs)[j]
    decreases |outs|
  {
    if k == 0 {
      PostKeeps(Post(inbox, from, outs[0]), from, outs[1..], j, Message(outs[0].signal, from));
    } else {
      PostDelivers(Post(inbox, from, outs[0]), from, outs[1..], k - 1, j);
    }
  }

  /** A pending message stays pending unless this step takes it. */
  lemma StaysPending(s: System, e: Event, j: nat, m: Message)
    requires WellFormed(s) && Enabled(s, e) && j < |s.inbox| && m in s.inbox[j]
    requires !(e.Take? && e.i == j && e.m == m)
    ensures m in Next(s, e).inbox[j]
  {
    var taken := if e.Take? then s.inbox[e.i := s.inbox[e.i] - multiset{e.m}] else s.inbox;
    PostKeeps(taken, e.i, React(s, e).1, j, m);
  }

  /** A sending reaches its destination's inbox. */
  lemma Delivered(s: System, e: Event, k: nat, j: nat)
    requires WellFormed(s) && Enabled(s, e)
    requires k < |React(s, e).1| && j < |s.inbox| && j != e.i
    requires React(s, e).1[k].ToAll? || React(s, e).1[k].dest == j
    ensures Message(React(s, e).1[k].signal, e.i) in Next(s, e).inbox[j]
  {
    var taken := if e.Take? then s.inbox[e.i := s.inbox[e.i] - multiset{e.m}] else s.inbox;
    PostDelivers(taken, e.i, React(s, e).1, k, j);
  }

  // ---- each step keeps the invariants ---------------------------------------------------------------------

  lemma StampedKept(s: System, e: Event)
    requires WellFormed(s) && Enabled(s, e) && Stamped(s)
    ensures Stamped(Next(s, e))
  {
    StampsOf(s.nodes[e.i], e, s.now);
  }

  /** The stamps of an event are the old ones or the present. */
  lemma StampsOf(nd: Node, e: Event, now: nat)
    ensures var r := Act(nd, e, now).0;
            (r.since == nd.since || r.since == now) && (r.announcedAt == nd.announcedAt || r.announcedAt == now)
  {
  }

  /** Unless it announces itself in this step, a leader in office after the step was in office before it. */
  lemma WasInOffice(s: System, e: Event, a: nat)
    requires WellFormed(s) && Enabled(s, e) && a < |s.nodes| && InOffice(Next(s, e).nodes[a])
    ensures e == Open(a) || (InOffice(s.nodes[a]) && s.nodes[a].announcedAt == Next(s, e).nodes[a].announcedAt)
    ensures e == Open(a) ==> Next(s, e).nodes[a].announcedAt == s.now && React(s, e).1 == [ToAll(LEADERUP)]
  {
  }

  lemma DuelKept(s: System, e: Event, a: nat, b: nat)
    requires WellFormed(s) && Enabled(s, e) && Stamped(s) && Duels(s)
    requires a < |s.nodes| && b < |s.nodes| && a != b
    requires var r := Next(s, e);
             InOffice(r.nodes[a]) && InOffice(r.nodes[b]) && r.nodes[a].announcedAt <= r.nodes[b].announcedAt
    ensures DuelPending(Next(s, e), a, b)
  {
    var r := Next(s, e);
    WasInOffice(s, e, a);
    WasInOffice(s, e, b);
    if e == Open(b) {
      Delivered(s, e, 0, a);
    } else {
      assert DuelPending(s, a, b);
      if Message(QUIT, a) in s.inbox[b] {
        StaysPending(s, e, b, Message(QUIT, a));
      } else if e == Take(a, Message(LEADERUP, b)) {
        Delivered(s, e, 0, b);
      } else {
        StaysPending(s, e, a, Message(LEADERUP, b));
      }
    }
  }

  lemma DuelsKept(s: System, e: Event)
    requires WellFormed(s) && Enabled(s, e) && Stamped(s) && Duels(s)
    ensures Duels(Next(s, e))
  {
    var r := Next(s, e);
    forall a, b | 0 <= a < |r.nodes| && 0 <= b < |r.nodes| && a != b && InOffice(r.nodes[a]) && InOffice(r.nodes[b])
                  && r.nodes[a].announcedAt <= r.nodes[b].announcedAt
      ensures DuelPending(r, a, b)
    {
      DuelKept(s, e, a, b);
    }
  }

  /** A contender after the step contended before it with the same stamp, or its bid starts with this step. */
  lemma WasContending(s: System, e: Event, a: nat)
    requires WellFormed(s) && Enabled(s, e) && a < |s.nodes| && Contending(Next(s, e).nodes[a])
    ensures (Contending(s.nodes[a]) && s.nodes[a].since == Next(s, e).nodes[a].since)
            || Next(s, e).nodes[a].since == s.now
  {
  }

  /** A candidate after the step was one before it, or has just multicast its ELECTION. */
  lemma WasCandidate(s: System, e: Event, b: nat)
    requires WellFormed(s) && Enabled(s, e) && b < |s.nodes| && Next(s, e).nodes[b].state.Candidate?
    ensures var r := Next(s, e);
            || (s.nodes[b].state.Candidate? && s.nodes[b].since == r.nodes[b].since
                && (r.nodes[b].marked <==>
                      s.nodes[b].marked || (e.Take? && e.i == b && (e.m.signal.QUIT? || e.m.signal.REFUSE?))))
            || (e == Depart(b) && React(s, e).1 == [ToAll(ELECTION)])
  {
  }

  /** A contender that takes a candidate's ELECTION refuses it or tells it to quit. */
  lemma AnswersElection(s: System, a: nat, b: nat)
    requires WellFormed(s) && Enabled(s, Take(a, Message(ELECTION, b))) && Contending(s.nodes[a])
    ensures var outs := React(s, Take(a, Message(ELECTION, b))).1;
            outs == [To(REFUSE, b)] || outs == [To(QUIT, b)]
  {
  }

  lemma RivalKept(s: System, e: Event, a: nat, b: nat)
    requires WellFormed(s) && Enabled(s, e) && Stamped(s) && Rivalry(s)
    requires a < |s.nodes| && b < |s.nodes| && a != b
    requires var r := Next(s, e);
             Contending(r.nodes[a]) && r.nodes[b].state.Candidate? && r.nodes[a].since <= r.nodes[b].since
    ensures RefusalPending(Next(s, e), a, b)
  {
    var r := Next(s, e);
    WasContending(s, e, a);
    WasCandidate(s, e, b);
    if !s.nodes[b].state.Candidate? {
      Delivered(s, e, 0, a);
    } else {
      assert RefusalPending(s, a, b);
      if s.nodes[b].marked {
      } else if Message(REFUSE, a) in s.inbox[b] {
        if e != Take(b, Message(REFUSE, a)) {
          StaysPending(s, e, b, Message(REFUSE, a));
        }
      } else if Message(QUIT, a) in s.inbox[b] {
        if e != Take(b, Message(QUIT, a)) {
          StaysPending(s, e, b, Message(QUIT, a));
        }
      } else if e == Take(a, Message(ELECTION, b)) {
        AnswersElection(s, a, b);
        Delivered(s, e, 0, b);
      } else {
        StaysPending(s, e, a, Message(ELECTION, b));
      }
    }
  }

  lemma RivalryKept(s: System, e: Event)
    requires WellFormed(s) && Enabled(s, e) && Stamped(s) && Rivalry(s)
    ensures Rivalry(Next(s, e))
  {
    var r := Next(s, e);
    forall a, b | 0 <= a < |r.nodes| && 0 <= b < |r.nodes| && a != b && Contending(r.nodes[a])
                  && r.nodes[b].state.Candidate? && r.nodes[a].since <= r.nodes[b].since
      ensures RefusalPending(r, a, b)
    {
      RivalKept(s, e, a, b);
    }
  }
}
