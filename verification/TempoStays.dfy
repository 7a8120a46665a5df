/** What a node's stay in a state comes to, told by the messages it has taken since it entered the state and not by the
    node's own notes: whom a leader lists, where a stay leads, and what each event puts into whose inbox. */
module TempoStays {
  import opened TempoNode
  import opened TempoElection
  import opened TempoRuns
  import opened TempoEpisodes
  import opened Seqs

  // ---- the leader's list --------------------------------------------------------------------------------------

  /** f's first FOLLOWERUP comes before g's. */
  predicate Earlier(q: seq<Message>, f: nat, g: nat) {
    var m, k := Message(FOLLOWERUP, f), Message(FOLLOWERUP, g);
    m in q && k in q && IndexOf(q, m) < IndexOf(q, k)
  }

  /** Exactly the senders of FOLLOWERUP, each once, in the order in which they were first heard. */
  predicate Lists(fs: seq<nat>, q: seq<Message>) {
    && NoDup(fs)
    && (forall m | m in q && m.signal.FOLLOWERUP? :: m.from in fs)
    && (forall f | f in fs :: Message(FOLLOWERUP, f) in q)
    && (forall a, b | 0 <= a < b < |fs| :: Earlier(q, fs[a], fs[b]))
  }

  /** The senders of FOLLOWERUP as they are first heard. */
  function Roster(q: seq<Message>): seq<nat> {
    if q == [] then [] else Joined(Roster(q[..|q| - 1]), q[|q| - 1])
  }

  function Joined(fs: seq<nat>, m: Message): seq<nat> {
    if m.signal.FOLLOWERUP? && m.from !in fs then fs + [m.from] else fs
  }

  lemma {:induction false} RosterLists(q: seq<Message>)
    ensures Lists(Roster(q), q)
  {
    if q != [] {
      var before, m := q[..|q| - 1], q[|q| - 1];
      RosterLists(before);
      LastApart(q);
      JoinedLists(Roster(before), before, m);
    }
  }

  lemma JoinedLists(fs: seq<nat>, q: seq<Message>, m: Message)
    requires Lists(fs, q)
    ensures Lists(Joined(fs, m), q + [m])
  {
    if m.signal.FOLLOWERUP? && m.from !in fs {
      ListsNew(fs, q, m);
    } else {
      ListsOld(fs, q, m);
    }
  }

  lemma IndexInPrefix(q: seq<Message>, k: Message, m: Message)
    requires m in q
    ensures IndexOf(q + [k], m) == IndexOf(q, m) && m in q + [k]
  {
    var i, j := IndexOf(q, m), IndexOf(q + [k], m);
    assert (q + [k])[i] == m && (j < |q| ==> (q + [k])[j] == q[j]);
  }

  lemma EarlierKept(q: seq<Message>, k: Message, f: nat, g: nat)
    requires Earlier(q, f, g)
    ensures Earlier(q + [k], f, g)
  {
    IndexInPrefix(q, k, Message(FOLLOWERUP, f));
    IndexInPrefix(q, k, Message(FOLLOWERUP, g));
  }

  lemma ListsOld(fs: seq<nat>, q: seq<Message>, m: Message)
    requires Lists(fs, q) && (m.signal.FOLLOWERUP? ==> m.from in fs)
    ensures Lists(fs, q + [m])
  {
    forall a, b | 0 <= a < b < |fs|
      ensures Earlier(q + [m], fs[a], fs[b])
    {
      EarlierKept(q, m, fs[a], fs[b]);
    }
  }

  lemma ListsNew(fs: seq<nat>, q: seq<Message>, m: Message)
    requires Lists(fs, q) && m.signal.FOLLOWERUP? && m.from !in fs
    ensures Lists(fs + [m.from], q + [m])
  {
    var gs := fs + [m.from];
    assert m !in q && (q + [m])[|q|] == m && m == Message(FOLLOWERUP, m.from);
    forall a, b | 0 <= a < b < |gs|
      ensures Earlier(q + [m], gs[a], gs[b])
    {
      if b < |fs| {
        EarlierKept(q, m, fs[a], fs[b]);
      } else {
        HeardLast(q, m, fs[a]);
      }
    }
  }

  lemma HeardLast(q: seq<Message>, m: Message, f: nat)
    requires Message(FOLLOWERUP, f) in q && m !in q && m.signal.FOLLOWERUP?
    ensures Earlier(q + [m], f, m.from)
  {
    IndexInPrefix(q, m, Message(FOLLOWERUP, f));
    assert (q + [m])[|q|] == m;
  }

  lemma RosterOne(q: seq<Message>, m: Message)
    ensures Roster(q + [m]) == Joined(Roster(q), m)
  {
    assert (q + [m])[..|q|] == q;
  }

  lemma LeaderJoins(nd: Node, m: Message)
    requires nd.state.Leader?
    ensures Handle(nd, m, 0).0.followers == Joined(nd.followers, m) && Handle(nd, m, 0).0.state == nd.state
  {
  }

  /** A leader that has taken the messages q lists the senders of FOLLOWERUP among them, and nobody else. */
  lemma {:induction false} LeaderLists(nd: Node, q: seq<Message>)
    requires ReadThrough(nd, q) && nd.state.Leader? && nd.followers == []
    ensures After(nd, q).state.Leader? && After(nd, q).followers == Roster(q)
  {
    if q != [] {
      var before, m := q[..|q| - 1], q[|q| - 1];
      LeaderLists(nd, before);
      LastApart(q);
      RosterOne(before, m);
      LeaderJoins(After(nd, before), m);
    }
  }

  lemma RosterOfStream(q: seq<Message>, k: nat)
    requires k <= |q|
    ensures forall f | f in Roster(q[..k]) :: Message(FOLLOWERUP, f) in q
  {
    RosterLists(q[..k]);
  }

  lemma StayLists(firstLeader: nat, q: seq<Message>)
    requires ReadThrough(Ready(Leader, firstLeader), q)
    ensures After(Ready(Leader, firstLeader), q).followers == Roster(q) && Lists(Roster(q), q)
  {
    LeaderLists(Ready(Leader, firstLeader), q);
    RosterLists(q);
  }

  // ---- what a node's notes say --------------------------------------------------------------------------------

  predicate Heard(q: seq<Message>, signal: Signal) {
    exists j | 0 <= j < |q| :: q[j].signal == signal
  }

  lemma HeardOne(q: seq<Message>, m: Message, signal: Signal)
    ensures Heard(q + [m], signal) <==> Heard(q, signal) || m.signal == signal
  {
    assert (q + [m])[|q|] == m;
    if Heard(q, signal) {
      var j :| 0 <= j < |q| && q[j].signal == signal;
      assert (q + [m])[j] == q[j];
    }
  }

  lemma RosterEmpty(q: seq<Message>)
    ensures Roster(q) != [] <==> Heard(q, FOLLOWERUP)
  {
    RosterLists(q);
    if Roster(q) != [] {
      assert Message(FOLLOWERUP, Roster(q)[0]) in q;
    }
    if Heard(q, FOLLOWERUP) {
      var j :| 0 <= j < |q| && q[j].signal == FOLLOWERUP;
      assert q[j] in q;
    }
  }

  /** The messages node i has taken since it entered its present state. */
  ghost function InStay(n: nat, es: seq<Event>, i: nat): seq<Message>
    requires Runs(n, es) && i < n
  {
    if es == [] then []
    else
      var before, e := es[..|es| - 1], es[|es| - 1];
      if Reach(n, es).nodes[i].state != Reach(n, before).nodes[i].state then []
      else InStay(n, before, i) + if e.Take? && e.i == i then [e.m] else []
  }

  /** The node's notes say of the messages of its stay what matters for what it does next. */
  predicate Tells(nd: Node, q: seq<Message>) {
    match nd.state
    case Start => !Heard(q, LEADERACK)
    case Consistency => !Heard(q, LEADERACK)
    case NoLeader => !Heard(q, LEADERREQ) && !Heard(q, LEADERUP) && !Heard(q, ELECTION)
    case Follower => nd.accepted <==> Heard(q, ELECTION)
    case Accept => true
    case Candidate => nd.marked <==> Heard(q, QUIT) || Heard(q, REFUSE)
    case Leader =>
      && nd.followers == Roster(q)
      && nd.exit == (if Heard(q, QUIT) then ToFollower else if Heard(q, CONFLICT) then ToConflict else Stays)
    case Conflict => !Heard(q, LEADERACK)
  }

  lemma TellsTake(nd: Node, q: seq<Message>, m: Message, now: nat)
    requires Tells(nd, q) && Listening(nd)
    ensures var r := Handle(nd, m, now).0;
            if r.state == nd.state then Tells(r, q + [m]) else Tells(r, [])
  {
    forall signal: Signal
      ensures Heard(q + [m], signal) <==> Heard(q, signal) || m.signal == signal
    {
      HeardOne(q, m, signal);
    }
    if nd.state.Leader? {
      LeaderTells(nd, q, m, now);
    }
  }

  lemma LeaderTells(nd: Node, q: seq<Message>, m: Message, now: nat)
    requires nd.state.Leader? && Tells(nd, q) && Listening(nd)
    ensures var r := Handle(nd, m, now).0;
            r.state == nd.state && Tells(r, q + [m])
  {
    HeardOne(q, m, QUIT);
    HeardOne(q, m, CONFLICT);
    RosterOne(q, m);
    LeaderExits(nd, m, now);
  }

  lemma LeaderExits(nd: Node, m: Message, now: nat)
    requires nd.state.Leader? && nd.exit.Stays?
    ensures var r := Handle(nd, m, now).0;
            && r.state == nd.state && r.followers == Joined(nd.followers, m)
            && r.exit == if m.signal.QUIT? then ToFollower else if m.signal.CONFLICT? then ToConflict else Stays
  {
  }

  lemma TellsOther(nd: Node, q: seq<Message>, e: Event, now: nat)
    requires Tells(nd, q) && !e.Take?
    ensures var r := Act(nd, e, now).0;
            if r.state == nd.state then Tells(r, q) else Tells(r, [])
  {
  }

  lemma {:induction false} NotesTell(n: nat, es: seq<Event>, i: nat)
    requires Runs(n, es) && i < n
    ensures Tells(Reach(n, es).nodes[i], InStay(n, es, i))
  {
    if es != [] {
      var before, e := es[..|es| - 1], es[|es| - 1];
      var s := Reach(n, before);
      NotesTell(n, before, i);
      EmptyEnds(InStay(n, before, i));
      if e.i == i {
        if e.Take? {
          TellsTake(s.nodes[i], InStay(n, before, i), e.m, s.now);
        } else {
          TellsOther(s.nodes[i], InStay(n, before, i), e, s.now);
        }
      }
    }
  }

  // ---- where a stay leads -------------------------------------------------------------------------------------

  /** The state diagram: where a node in state s goes that has taken the messages q there. */
  predicate Leads(s: State, q: seq<Message>, e: Event, to: State) {
    match e
    case Open(_) => to == s
    case Take(_, m) =>
      to == (if s.Start? && m.signal.LEADERACK? then Consistency
             else if s.Consistency? && m.signal.LEADERACK? then Follower
             else if s.NoLeader? && (m.signal.LEADERREQ? || m.signal.LEADERUP? || m.signal.ELECTION?) then Follower
             else if s.Conflict? && m.signal.LEADERACK? then Leader
             else s)
    case Depart(_) =>
      match s
      case Start => to == NoLeader
      case Consistency => to == Follower
      case NoLeader => to == Leader
      case Follower => to == (if Heard(q, ELECTION) then Accept else Candidate)
      case Accept => to == Follower
      case Candidate => to == (if Heard(q, QUIT) || Heard(q, REFUSE) then Follower else Leader)
      case Leader => if Heard(q, QUIT) then to == Follower else Heard(q, CONFLICT) && to == Conflict
      case Conflict => to == Leader
  }

  /** In every run every event moves its node along the diagram, judged by the messages the node has taken. */
  lemma EventLeads(n: nat, es: seq<Event>, e: Event)
    requires Runs(n, es) && Enabled(Reach(n, es), e)
    ensures var s := Reach(n, es);
            Leads(s.nodes[e.i].state, InStay(n, es, e.i), e, Next(s, e).nodes[e.i].state)
  {
    NotesTell(n, es, e.i);
    ActLeads(Reach(n, es).nodes[e.i], InStay(n, es, e.i), e, Reach(n, es).now);
  }

  lemma ActLeads(nd: Node, q: seq<Message>, e: Event, now: nat)
    requires Tells(nd, q) && Can(nd, e)
    ensures Leads(nd.state, q, e, Act(nd, e, now).0.state)
  {
  }

  /** Whether node i has sent its state's opening multicast since it entered the state. */
  ghost predicate HasOpened(n: nat, es: seq<Event>, i: nat)
    requires Runs(n, es) && i < n
  {
    es != [] &&
    (var before, e := es[..|es| - 1], es[|es| - 1];
     e == Open(i)
     || (Reach(n, es).nodes[i].state == Reach(n, before).nodes[i].state && HasOpened(n, before, i)))
  }

  /** A state that opens with a multicast has begun once that is sent, every other at once. */
  predicate Begins(s: State, announced: bool) {
    if s.Start? || s.Follower? || s.Leader? || s.Conflict? then announced else true
  }

  lemma {:induction false} BegunExactly(n: nat, es: seq<Event>, i: nat)
    requires Runs(n, es) && i < n
    ensures Reach(n, es).nodes[i].begun <==> Begins(Reach(n, es).nodes[i].state, HasOpened(n, es, i))
  {
    if es != [] {
      var before, e := es[..|es| - 1], es[|es| - 1];
      BegunExactly(n, before, i);
      if e.i == i {
        ActBegins(Reach(n, before).nodes[i], HasOpened(n, before, i), e, Reach(n, before).now);
      }
    }
  }

  lemma ActBegins(nd: Node, announced: bool, e: Event, now: nat)
    requires Can(nd, e) && (nd.begun <==> Begins(nd.state, announced))
    ensures var r := Act(nd, e, now).0;
            r.begun <==> Begins(r.state, e.Open? || (r.state == nd.state && announced))
  {
    match e
    case Open(_) =>
    case Take(_, m) => HandleBegins(nd, announced, m, now);
    case Depart(_) => LeaveBegins(nd, now);
  }

  lemma HandleBegins(nd: Node, announced: bool, m: Message, now: nat)
    requires Listening(nd) && (nd.begun <==> Begins(nd.state, announced))
    ensures var r := Handle(nd, m, now).0;
            r.begun <==> Begins(r.state, r.state == nd.state && announced)
  {
  }

  lemma LeaveBegins(nd: Node, now: nat)
    ensures var r := Leave(nd, now).0;
            r.state != nd.state && (r.begun <==> Begins(r.state, false))
  {
  }

  /** Which events are possible after a run: opening a state once; taking any pending message, except that a follower
      stops at an ELECTION and a leader at a QUIT or CONFLICT; and leaving at any time, a leader only then. */
  lemma EnabledExactly(n: nat, es: seq<Event>, e: Event)
    requires Runs(n, es) && e.i < n
    ensures var s := Reach(n, es);
            var st, q := s.nodes[e.i].state, InStay(n, es, e.i);
            var begun := Begins(st, HasOpened(n, es, e.i));
            var ended := st.Leader? && (Heard(q, QUIT) || Heard(q, CONFLICT));
            Enabled(s, e) <==>
              match e
              case Open(_) => !begun
              case Take(_, m) => begun && m in s.inbox[e.i] && !(st.Follower? && Heard(q, ELECTION)) && !ended
              case Depart(_) => begun && (st.Leader? ==> ended)
  {
    NotesTell(n, es, e.i);
    BegunExactly(n, es, e.i);
  }

  // ---- a stay of the daemon -----------------------------------------------------------------------------------

  /** What the node notes in a stay that has taken all of q says of q what matters for what it does next. */
  lemma {:induction false} ReadTells(s: State, firstLeader: nat, q: seq<Message>)
    requires ReadThrough(Ready(s, firstLeader), q)
    ensures var nd := After(Ready(s, firstLeader), q);
            nd.state == s ==> Tells(nd, q)
  {
    if q != [] {
      var before, m := q[..|q| - 1], q[|q| - 1];
      ReadTells(s, firstLeader, before);
      LastApart(q);
      TellsTake(After(Ready(s, firstLeader), before), before, m, 0);
    }
  }

  /** Where a whole stay leads that takes the messages q. */
  predicate Ends(s: State, q: seq<Message>, to: State) {
    match s
    case Start => to == (if Heard(q, LEADERACK) then Consistency else NoLeader)
    case Consistency => to == Follower
    case NoLeader =>
      to == (if Heard(q, LEADERREQ) || Heard(q, LEADERUP) || Heard(q, ELECTION) then Follower else Leader)
    case Follower => to == (if Heard(q, ELECTION) then Accept else Candidate)
    case Accept => to == Follower
    case Candidate => to == (if Heard(q, QUIT) || Heard(q, REFUSE) then Follower else Leader)
    case Leader => to == (if Heard(q, QUIT) then Follower else if Heard(q, CONFLICT) then Conflict else Leader)
    case Conflict => to == Leader
  }

  /** No stay but a leader's goes on for ever, and each leads where its messages say. */
  lemma EpisodeEnds(s: State, firstLeader: nat, q: seq<Message>, to: State, firstLeader': nat, outs: seq<Sending>)
    requires Episode(s, firstLeader, q, to, firstLeader', outs)
    ensures Ends(s, q, to)
  {
    var nd := After(Ready(s, firstLeader), q);
    if nd.state == s {
      ReadTells(s, firstLeader, q);
      StaysBegun(s, firstLeader, q);
      StayEnds(nd, s, q);
    } else {
      var before, m := q[..|q| - 1], q[|q| - 1];
      ReadTells(s, firstLeader, before);
      LastApart(q);
      MovedOn(After(Ready(s, firstLeader), before), before, m);
    }
  }

  lemma StayEnds(nd: Node, s: State, q: seq<Message>)
    requires nd.state == s && Tells(nd, q) && nd.begun
    ensures Ends(s, q, Onward(s, nd).0)
  {
  }

  lemma MovedOn(nd: Node, q: seq<Message>, m: Message)
    requires Tells(nd, q) && Handle(nd, m, 0).0.state != nd.state
    ensures Ends(nd.state, q + [m], Handle(nd, m, 0).0.state)
  {
    HeardOne(q, m, LEADERACK);
    HeardOne(q, m, LEADERREQ);
    HeardOne(q, m, LEADERUP);
    HeardOne(q, m, ELECTION);
  }

  lemma {:induction false} StaysBegun(s: State, firstLeader: nat, q: seq<Message>)
    requires ReadThrough(Ready(s, firstLeader), q) && After(Ready(s, firstLeader), q).state == s
    ensures After(Ready(s, firstLeader), q).begun
  {
    if q != [] {
      StaysBegun(s, firstLeader, q[..|q| - 1]);
    }
  }

  // ---- what an event puts into the inboxes --------------------------------------------------------------------

  /** The reply that a message gets from a node in state s. */
  predicate Replies(s: State, asked: Signal, reply: Signal) {
    match reply
    case LEADERACK => s.Leader? && (asked.LEADERREQ? || asked.RESOLVE?)
    case QUIT => (s.Leader? && (asked.ELECTION? || asked.LEADERUP?)) || (s.Conflict? && asked.LEADERACK?)
    case FOLLOWERUP => (s.Follower? || s.Accept?) && asked.LEADERUP?
    case ACCEPT => s.Follower? && asked.ELECTION?
    case REFUSE => (s.Accept? || s.Candidate?) && asked.ELECTION?
    case ACK => s.Candidate? && (asked.ACCEPT? || asked.QUIT? || asked.REFUSE?)
    case _ => false
  }

  /** What every other node is sent when a node in state s opens it, leaves it having taken the messages q, or ends a
      conflict. */
  predicate Announces(s: State, q: seq<Message>, e: Event, signal: Signal) {
    match e
    case Open(_) =>
      || (s.Start? && signal.LEADERREQ?) || (s.Follower? && signal.FOLLOWERUP?)
      || (s.Leader? && signal.LEADERUP?) || (s.Conflict? && signal.RESOLVE?)
    case Take(_, m) => s.Conflict? && m.signal.LEADERACK? && signal.LEADERUP?
    case Depart(_) =>
      (s.Follower? && !Heard(q, ELECTION) && signal.ELECTION?) || (s.Conflict? && signal.LEADERUP?)
  }

  /** Whether this event makes a node in state s send the signal to node j: as a reply, in an announcement, or, at a
      second LEADERACK, to have the leader heard first step down. */
  predicate Reaches(s: State, first: nat, q: seq<Message>, e: Event, signal: Signal, j: nat) {
    || (e.Take? && e.m.from == j && Replies(s, e.m.signal, signal))
    || (e.Take? && s.Consistency? && e.m.signal.LEADERACK? && j == first && signal.QUIT?)
    || Announces(s, q, e, signal)
  }

  function Count(outs: seq<Sending>, signal: Signal, j: nat): nat {
    if outs == [] then 0
    else (if outs[0].signal == signal && (outs[0].ToAll? || outs[0].dest == j) then 1 else 0)
         + Count(outs[1..], signal, j)
  }

  lemma {:induction false} PostCounts(inbox: seq<Inbox>, from: nat, outs: seq<Sending>, j: nat, m: Message)
    requires j < |inbox| && j != from
    ensures PostAll(inbox, from, outs)[j][m]
         == inbox[j][m] + if m.from == from then Count(outs, m.signal, j) else 0
    decreases |outs|
  {
    if outs != [] {
      PostCounts(Post(inbox, from, outs[0]), from, outs[1..], j, m);
    }
  }

  lemma ActReaches(nd: Node, q: seq<Message>, e: Event, now: nat, signal: Signal, j: nat)
    requires Tells(nd, q) && Can(nd, e)
    ensures Count(Act(nd, e, now).1, signal, j)
         == if Reaches(nd.state, nd.firstLeader, q, e, signal, j) then 1 else 0
  {
    match e
    case Open(_) =>
    case Take(_, m) =>
      if nd.state.Conflict? {
        ConflictReaches(nd, q, e, now, signal, j);
      } else {
        TakeReaches(nd, q, e, now, signal, j);
      }
    case Depart(_) =>
  }

  lemma TakeReaches(nd: Node, q: seq<Message>, e: Event, now: nat, signal: Signal, j: nat)
    requires e.Take? && !nd.state.Conflict?
    ensures Count(Handle(nd, e.m, now).1, signal, j)
         == if Reaches(nd.state, nd.firstLeader, q, e, signal, j) then 1 else 0
  {
  }

  lemma ConflictReaches(nd: Node, q: seq<Message>, e: Event, now: nat, signal: Signal, j: nat)
    requires e.Take? && nd.state.Conflict?
    ensures Count(Handle(nd, e.m, now).1, signal, j)
         == if Reaches(nd.state, nd.firstLeader, q, e, signal, j) then 1 else 0
  {
    CountTwo(To(QUIT, e.m.from), ToAll(LEADERUP), signal, j);
  }

  lemma CountTwo(a: Sending, b: Sending, signal: Signal, j: nat)
    ensures Count([a, b], signal, j) == Count([a], signal, j) + Count([b], signal, j)
  {
    assert [a, b][1..] == [b];
  }

  /** In every run an event puts into another node's inbox exactly the replies and announcements it should, each once,
      and takes from its own node's inbox just the message it takes. */
  lemma TrafficExactly(n: nat, es: seq<Event>, e: Event, j: nat, m: Message)
    requires Runs(n, es) && Enabled(Reach(n, es), e) && j < n
    ensures var s := Reach(n, es);
            var nd := s.nodes[e.i];
            j != e.i ==>
              Next(s, e).inbox[j][m] == s.inbox[j][m]
                + if m.from == e.i && Reaches(nd.state, nd.firstLeader, InStay(n, es, e.i), e, m.signal, j) then 1
                  else 0
    ensures var s := Reach(n, es);
            j == e.i ==> Next(s, e).inbox[j] == s.inbox[j] - if e.Take? then multiset{e.m} else multiset{}
  {
    var s := Reach(n, es);
    if j != e.i {
      NotesTell(n, es, e.i);
      ActReaches(s.nodes[e.i], InStay(n, es, e.i), e, s.now, m.signal, j);
      PostCounts(if e.Take? then s.inbox[e.i := s.inbox[e.i] - multiset{e.m}] else s.inbox, e.i, React(s, e).1, j, m);
    } else {
      InboxStep(s, e);
    }
  }
}
