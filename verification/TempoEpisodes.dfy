/** One stay of a node in a state, told by the node alone, and how it lies in the runs of the whole system. */
module TempoEpisodes {
  import opened TempoNode
  import opened TempoElection
  import opened TempoRuns
  import opened Seqs

  // ---- a stay in a state --------------------------------------------------------------------------------------

  /** The node after taking these messages, and what it has sent meanwhile. */
  function After(nd: Node, q: seq<Message>): Node {
    if q == [] then nd else Handle(After(nd, q[..|q| - 1]), q[|q| - 1], 0).0
  }

  function Sent(nd: Node, q: seq<Message>): seq<Sending> {
    if q == [] then [] else Sent(nd, q[..|q| - 1]) + Handle(After(nd, q[..|q| - 1]), q[|q| - 1], 0).1
  }

  /** Still in the same state, with its reader running. */
  predicate Reading(nd: Node, s: State) {
    nd.state == s && Listening(nd)
  }

  /** The reader runs until it has taken all of q. */
  predicate ReadThrough(nd: Node, q: seq<Message>) {
    q == [] || (ReadThrough(nd, q[..|q| - 1]) && Reading(After(nd, q[..|q| - 1]), nd.state))
  }

  lemma TakeOne(nd: Node, q: seq<Message>, k: nat)
    requires k < |q|
    ensures After(nd, q[..k + 1]) == Handle(After(nd, q[..k]), q[k], 0).0
    ensures Sent(nd, q[..k + 1]) == Sent(nd, q[..k]) + Handle(After(nd, q[..k]), q[k], 0).1
    ensures ReadThrough(nd, q[..k + 1]) <==> ReadThrough(nd, q[..k]) && Reading(After(nd, q[..k]), nd.state)
  {
    assert q[..k + 1][..k] == q[..k];
  }

  /** A node that has just entered the state. */
  function Entered(s: State, firstLeader: nat): Node {
    Enter(INITIAL, s).(firstLeader := firstLeader)
  }

  /** The same once the state has been opened, if it opens with a multicast. */
  function Ready(s: State, firstLeader: nat): Node {
    Opening(Entered(s, firstLeader), 0).0
  }

  function Greeting(s: State): seq<Sending> {
    Opening(Entered(s, 0), 0).1
  }

  /** Whether the node leaves when its reader has taken all it takes: a message may already have moved it on. */
  predicate Leaves(s: State, nd: Node) {
    nd.state == s && MayLeave(nd)
  }

  function Onward(s: State, nd: Node): (r: (State, seq<Sending>)) {
    if Leaves(s, nd) then (Leave(nd, 0).0.state, Leave(nd, 0).1) else (nd.state, [])
  }

  /** Everything a stay in s that takes the messages q sends. */
  function Outs(s: State, firstLeader: nat, q: seq<Message>): seq<Sending> {
    var base := Ready(s, firstLeader);
    Greeting(s) + Sent(base, q) + Onward(s, After(base, q)).1
  }

  /** A stay in state s that takes the messages q: where it leads, and everything it sends. */
  predicate Episode(s: State, firstLeader: nat, q: seq<Message>, to: State, firstLeader': nat, outs: seq<Sending>) {
    var base := Ready(s, firstLeader);
    && ReadThrough(base, q)
    && to == Onward(s, After(base, q)).0 && firstLeader' == After(base, q).firstLeader
    && outs == Outs(s, firstLeader, q)
  }

  // ---- the events of one node -----------------------------------------------------------------------------------

  /** What the node's behaviour depends on: everything but the record of its bid. */
  function Plain(nd: Node): Node {
    nd.(since := 0, announcedAt := 0, elected := false)
  }

  /** The node after these events of its own, and what it has sent. */
  function Play(nd: Node, es: seq<Event>): (Node, seq<Sending>) {
    if es == [] then (nd, [])
    else
      var (p, outs) := Play(nd, es[..|es| - 1]);
      var (r, more) := Act(p, es[|es| - 1], 0);
      (r, outs + more)
  }

  predicate CanPlay(nd: Node, es: seq<Event>) {
    es == [] || (CanPlay(nd, es[..|es| - 1]) && Can(Play(nd, es[..|es| - 1]).0, es[|es| - 1]))
  }

  lemma PlayOne(nd: Node, es: seq<Event>, e: Event)
    ensures Play(nd, es + [e]) ==
            (Act(Play(nd, es).0, e, 0).0, Play(nd, es).1 + Act(Play(nd, es).0, e, 0).1)
    ensures CanPlay(nd, es + [e]) <==> CanPlay(nd, es) && Can(Play(nd, es).0, e)
  {
    assert (es + [e])[..|es|] == es;
  }

  lemma {:induction false} PlayConcat(nd: Node, a: seq<Event>, b: seq<Event>)
    ensures Play(nd, a + b) == (Play(Play(nd, a).0, b).0, Play(nd, a).1 + Play(Play(nd, a).0, b).1)
    ensures CanPlay(nd, a + b) <==> CanPlay(nd, a) && CanPlay(Play(nd, a).0, b)
  {
    if b == [] {
      assert a + b == a && Play(nd, a).1 + [] == Play(nd, a).1;
    } else {
      var b', e := b[..|b| - 1], b[|b| - 1];
      LastApart(b);
      Associate(a, b', [e]);
      PlayConcat(nd, a, b');
      PlayOne(nd, a + b', e);
      PlayOne(Play(nd, a).0, b', e);
      Associate(Play(nd, a).1, Play(Play(nd, a).0, b').1, Act(Play(Play(nd, a).0, b').0, e, 0).1);
    }
  }

  /** The same node but for its bid. */
  predicate Alike(a: Node, b: Node) {
    a == b.(since := a.since, announcedAt := a.announcedAt, elected := a.elected)
  }

  lemma EnterAlike(a: Node, b: Node, s: State)
    requires Alike(a, b)
    ensures Alike(Enter(a, s), Enter(b, s))
  {
  }

  lemma WaitingStamps(a: Node, b: Node, m: Message, now: nat)
    requires Alike(a, b) && (a.state.Start? || a.state.Consistency? || a.state.NoLeader? || a.state.Conflict?)
    ensures Alike(Handle(a, m, now).0, Handle(b, m, 0).0) && Handle(a, m, now).1 == Handle(b, m, 0).1
  {
    EnterAlike(a, b, Consistency);
    EnterAlike(a, b, Follower);
    EnterAlike(a, b, Leader);
  }

  lemma LeaderStamps(a: Node, b: Node, m: Message)
    requires Alike(a, b)
    ensures Alike(OnLeader(a, m).0, OnLeader(b, m).0) && OnLeader(a, m).1 == OnLeader(b, m).1
  {
  }

  lemma CandidateStamps(a: Node, b: Node, m: Message)
    requires Alike(a, b)
    ensures Alike(OnCandidate(a, m).0, OnCandidate(b, m).0) && OnCandidate(a, m).1 == OnCandidate(b, m).1
  {
  }

  lemma FollowerStamps(a: Node, b: Node, m: Message)
    requires Alike(a, b)
    ensures Alike(OnFollower(a, m).0, OnFollower(b, m).0) && OnFollower(a, m).1 == OnFollower(b, m).1
    ensures Alike(OnAccept(a, m).0, OnAccept(b, m).0) && OnAccept(a, m).1 == OnAccept(b, m).1
  {
  }

  lemma HandleStamps(a: Node, b: Node, m: Message, now: nat)
    requires Alike(a, b)
    ensures Alike(Handle(a, m, now).0, Handle(b, m, 0).0) && Handle(a, m, now).1 == Handle(b, m, 0).1
  {
    match b.state
    case Leader => LeaderStamps(a, b, m);
    case Candidate => CandidateStamps(a, b, m);
    case Follower => FollowerStamps(a, b, m);
    case Accept => FollowerStamps(a, b, m);
    case _ => WaitingStamps(a, b, m, now);
  }

  lemma LeaveStamps(a: Node, b: Node, now: nat)
    requires Alike(a, b)
    ensures Alike(Leave(a, now).0, Leave(b, 0).0) && Leave(a, now).1 == Leave(b, 0).1
  {
    var to := Leave(b, 0).0.state;
    EnterAlike(a, b, to);
    assert a.state == b.state;
    match b.state
    case Follower =>
    case Candidate =>
    case Leader =>
    case _ =>
  }

  lemma OpeningStamps(a: Node, b: Node, now: nat)
    requires Alike(a, b)
    ensures Alike(Opening(a, now).0, Opening(b, 0).0) && Opening(a, now).1 == Opening(b, 0).1
  {
  }

  lemma AlikePlain(a: Node, b: Node)
    ensures Alike(a, b) <==> Plain(a) == Plain(b)
  {
  }

  /** A node behaves the same whatever its bid and the time are. */
  lemma StampsDoNotMatter(a: Node, b: Node, e: Event, now: nat)
    requires Plain(a) == Plain(b)
    ensures Can(a, e) <==> Can(b, e)
    ensures Plain(Act(a, e, now).0) == Plain(Act(b, e, 0).0) && Act(a, e, now).1 == Act(b, e, 0).1
  {
    AlikePlain(a, b);
    match e
    case Open(_) =>
      OpeningStamps(a, b, now);
      AlikePlain(Opening(a, now).0, Opening(b, 0).0);
    case Take(_, m) =>
      HandleStamps(a, b, m, now);
      AlikePlain(Handle(a, m, now).0, Handle(b, m, 0).0);
    case Depart(_) =>
      LeaveStamps(a, b, now);
      AlikePlain(Leave(a, now).0, Leave(b, 0).0);
  }

  lemma {:induction false} PlayStamps(a: Node, b: Node, es: seq<Event>)
    requires Plain(a) == Plain(b)
    ensures CanPlay(a, es) <==> CanPlay(b, es)
    ensures Plain(Play(a, es).0) == Plain(Play(b, es).0) && Play(a, es).1 == Play(b, es).1
  {
    if es != [] {
      var before, e := es[..|es| - 1], es[|es| - 1];
      PlayStamps(a, b, before);
      StampsDoNotMatter(Play(a, before).0, Play(b, before).0, e, 0);
      StampsDoNotMatter(Play(b, before).0, Play(b, before).0, e, 0);
    }
  }

  // ---- a stay as a sequence of events -----------------------------------------------------------------------------

  function TakeAll(i: nat, q: seq<Message>): (es: seq<Event>)
    ensures |es| == |q|
  {
    seq(|q|, j requires 0 <= j < |q| => Take(i, q[j]))
  }

  /** Opening the state, taking the messages, leaving. */
  function Steps(i: nat, s: State, firstLeader: nat, q: seq<Message>): seq<Event> {
    (if Opens(s) then [Open(i)] else []) + TakeAll(i, q)
    + (if Leaves(s, After(Ready(s, firstLeader), q)) then [Depart(i)] else [])
  }

  lemma {:induction false} PlayTakes(nd: Node, i: nat, q: seq<Message>)
    requires ReadThrough(nd, q)
    ensures CanPlay(nd, TakeAll(i, q)) && Play(nd, TakeAll(i, q)) == (After(nd, q), Sent(nd, q))
  {
    if q != [] {
      var before, m := q[..|q| - 1], q[|q| - 1];
      PlayTakes(nd, i, before);
      assert TakeAll(i, q) == TakeAll(i, before) + [Take(i, m)];
      PlayOne(nd, TakeAll(i, before), Take(i, m));
    }
  }

  lemma PlayOpens(i: nat, s: State, firstLeader: nat)
    ensures var es := if Opens(s) then [Open(i)] else [];
            CanPlay(Entered(s, firstLeader), es)
            && Play(Entered(s, firstLeader), es) == (Ready(s, firstLeader), Greeting(s))
  {
    PlayOne(Entered(s, firstLeader), [], Open(i));
    assert [] + [Open(i)] == [Open(i)] && [] + Greeting(s) == Greeting(s);
  }

  lemma PlayLeaves(i: nat, s: State, nd: Node)
    ensures var es := if Leaves(s, nd) then [Depart(i)] else [];
            CanPlay(nd, es) && Play(nd, es).1 == Onward(s, nd).1 && Play(nd, es).0.state == Onward(s, nd).0
            && Play(nd, es).0 == if Leaves(s, nd) then Leave(nd, 0).0 else nd
  {
    PlayOne(nd, [], Depart(i));
    assert [] + [Depart(i)] == [Depart(i)] && [] + Leave(nd, 0).1 == Leave(nd, 0).1;
  }

  /** A change of state is an entry: nothing of the old state is left but the first leader heard and the bid. */
  predicate Fresh(nd: Node) {
    Plain(nd) == Plain(Entered(nd.state, nd.firstLeader))
  }

  lemma {:induction false} MovedIsFresh(nd: Node, q: seq<Message>)
    requires ReadThrough(nd, q) && After(nd, q).state != nd.state
    ensures Fresh(After(nd, q))
  {
    HandleEnters(After(nd, q[..|q| - 1]), q[|q| - 1]);
  }

  lemma HandleEnters(nd: Node, m: Message)
    ensures Handle(nd, m, 0).0.state != nd.state ==> Fresh(Handle(nd, m, 0).0)
  {
  }

  lemma LeaveEnters(nd: Node)
    ensures Fresh(Leave(nd, 0).0) && Leave(nd, 0).0.firstLeader == nd.firstLeader && Leave(nd, 0).0.state != nd.state
  {
    var to := Leave(nd, 0).0.state;
    LeftAlike(nd);
    AlikePlain(Leave(nd, 0).0, Enter(nd, to));
    EnteredFresh(nd, to);
  }

  lemma LeftAlike(nd: Node)
    ensures var r := Leave(nd, 0).0;
            Alike(r, Enter(nd, r.state)) && r.firstLeader == nd.firstLeader && r.state != nd.state
  {
  }

  /** Entering a state leaves nothing of the old one. */
  lemma EnteredFresh(nd: Node, to: State)
    ensures Plain(Enter(nd, to)) == Plain(Entered(to, nd.firstLeader))
  {
  }

  /** Where a stay in s leads: just entered the next state, or still where the last message left it. */
  predicate Arrives(nd: Node, s: State, firstLeader: nat, q: seq<Message>, to: State, firstLeader': nat) {
    if to == s then Plain(nd) == Plain(After(Ready(s, firstLeader), q))
    else Plain(nd) == Plain(Entered(to, firstLeader'))
  }

  /** The events of a stay, played by a node that has just entered the state, are the stay. */
  lemma EpisodePlays(i: nat, s: State, firstLeader: nat, q: seq<Message>, to: State, firstLeader': nat,
                     outs: seq<Sending>)
    requires Episode(s, firstLeader, q, to, firstLeader', outs)
    ensures var (nd, es) := (Entered(s, firstLeader), Steps(i, s, firstLeader, q));
            CanPlay(nd, es) && Play(nd, es).1 == outs && Arrives(Play(nd, es).0, s, firstLeader, q, to, firstLeader')
  {
    var nd, base := Entered(s, firstLeader), Ready(s, firstLeader);
    var last := After(base, q);
    var open := if Opens(s) then [Open(i)] else [];
    var depart := if Leaves(s, last) then [Depart(i)] else [];
    PlayOpens(i, s, firstLeader);
    PlayTakes(base, i, q);
    PlayConcat(nd, open, TakeAll(i, q));
    PlayLeaves(i, s, last);
    PlayConcat(nd, open + TakeAll(i, q), depart);
    if Leaves(s, last) {
      LeaveEnters(last);
    } else if last.state != s {
      MovedIsFresh(base, q);
    }
  }

  // ---- in every interleaving --------------------------------------------------------------------------------------

  /** The events of node i among these. */
  function Mine(es: seq<Event>, i: nat): seq<Event> {
    if es == [] then [] else Mine(es[..|es| - 1], i) + if es[|es| - 1].i == i then [es[|es| - 1]] else []
  }

  /** Everything node i has sent in this run. */
  ghost function Output(n: nat, es: seq<Event>, i: nat): seq<Sending>
    requires Runs(n, es)
  {
    if es == [] then []
    else
      var before, e := es[..|es| - 1], es[|es| - 1];
      Output(n, before, i) + if e.i == i then React(Reach(n, before), e).1 else []
  }

  lemma LastStep(n: nat, es: seq<Event>, e: Event, i: nat)
    requires Runs(n, es + [e]) && i < n
    ensures Runs(n, es) && Enabled(Reach(n, es), e)
    ensures Output(n, es + [e], i) == Output(n, es, i) + if e.i == i then React(Reach(n, es), e).1 else []
    ensures Reach(n, es + [e]).nodes[i] == if e.i == i then React(Reach(n, es), e).0 else Reach(n, es).nodes[i]
  {
    assert (es + [e])[..|es|] == es;
  }

  lemma MineOne(es: seq<Event>, e: Event, i: nat)
    ensures Mine(es + [e], i) == Mine(es, i) + if e.i == i then [e] else []
  {
    assert (es + [e])[..|es|] == es;
  }

  /** After this run node i is, but for its bid, what these events of its own make of nd, and has sent what they
      send. */
  ghost predicate Follows(n: nat, es: seq<Event>, i: nat, nd: Node, mine: seq<Event>, before: seq<Sending>)
    requires Runs(n, es) && i < n
  {
    && CanPlay(nd, mine) && Plain(Reach(n, es).nodes[i]) == Plain(Play(nd, mine).0)
    && Output(n, es, i) == before + Play(nd, mine).1
  }

  lemma FollowsStep(n: nat, es: seq<Event>, e: Event, i: nat, nd: Node, mine: seq<Event>, before: seq<Sending>)
    requires Runs(n, es) && Runs(n, es + [e]) && i < n && Follows(n, es, i, nd, mine, before)
    ensures Follows(n, es + [e], i, nd, mine + if e.i == i then [e] else [], before)
  {
    LastStep(n, es, e, i);
    if e.i == i {
      FollowsOne(Reach(n, es), nd, mine, e);
      Associate(before, Play(nd, mine).1, React(Reach(n, es), e).1);
    } else {
      assert mine + [] == mine && Output(n, es, i) + [] == Output(n, es, i);
    }
  }

  /** In any run the node is, and has sent, what its own events alone make of it, whatever the others do in between. */
  lemma {:induction false} NodeFollows(n: nat, es: seq<Event>, w: seq<Event>, i: nat)
    requires Runs(n, es) && Runs(n, es + w) && i < n
    ensures Follows(n, es + w, i, Reach(n, es).nodes[i], Mine(w, i), Output(n, es, i))
    decreases |w|
  {
    if w == [] {
      assert es + w == es && Output(n, es, i) + [] == Output(n, es, i);
    } else {
      var w', e := w[..|w| - 1], w[|w| - 1];
      LastApart(w);
      Associate(es, w', [e]);
      LastStep(n, es + w', e, i);
      NodeFollows(n, es, w', i);
      FollowsStep(n, es + w', e, i, Reach(n, es).nodes[i], Mine(w', i), Output(n, es, i));
      MineOne(w', e, i);
    }
  }

  lemma FollowsOne(s: System, nd: Node, es: seq<Event>, e: Event)
    requires WellFormed(s) && Enabled(s, e) && CanPlay(nd, es) && Plain(s.nodes[e.i]) == Plain(Play(nd, es).0)
    ensures CanPlay(nd, es + [e]) && Plain(React(s, e).0) == Plain(Play(nd, es + [e]).0)
    ensures Play(nd, es + [e]).1 == Play(nd, es).1 + React(s, e).1
  {
    PlayOne(nd, es, e);
    StampsDoNotMatter(s.nodes[e.i], Play(nd, es).0, e, s.now);
  }

  /** Whatever the other nodes do meanwhile, a node that has just entered s and whose own events are those of a stay
      ends where the stay leads, and has sent in between exactly what the stay sends. */
  lemma EpisodeInterleaved(n: nat, es: seq<Event>, w: seq<Event>, i: nat, s: State, firstLeader: nat, q: seq<Message>,
                           to: State, firstLeader': nat, outs: seq<Sending>)
    requires Runs(n, es) && Runs(n, es + w) && i < n && Mine(w, i) == Steps(i, s, firstLeader, q)
    requires Plain(Reach(n, es).nodes[i]) == Plain(Entered(s, firstLeader))
    requires Episode(s, firstLeader, q, to, firstLeader', outs)
    ensures Arrives(Reach(n, es + w).nodes[i], s, firstLeader, q, to, firstLeader')
    ensures Output(n, es + w, i) == Output(n, es, i) + outs
  {
    NodeFollows(n, es, w, i);
    PlayStamps(Reach(n, es).nodes[i], Entered(s, firstLeader), Mine(w, i));
    EpisodePlays(i, s, firstLeader, q, to, firstLeader', outs);
  }

  // ---- as a stretch of a run ----------------------------------------------------------------------------------------

  /** The messages that the events take. */
  function Taken(es: seq<Event>): seq<Message> {
    if es == [] then []
    else Taken(es[..|es| - 1]) + if es[|es| - 1].Take? then [es[|es| - 1].m] else []
  }

  lemma TakenOne(es: seq<Event>, e: Event)
    ensures Taken(es + [e]) == Taken(es) + if e.Take? then [e.m] else []
    ensures multiset(Taken(es + [e])) == multiset(Taken(es)) + if e.Take? then multiset{e.m} else multiset{}
  {
    assert (es + [e])[..|es|] == es;
  }

  /** Everything sent has reached the inboxes it was sent to. */
  ghost predicate Arrived(s: System, i: nat, outs: seq<Sending>)
    requires WellFormed(s)
  {
    forall t, j | 0 <= t < |outs| && 0 <= j < |s.inbox| && j != i && (outs[t].ToAll? || outs[t].dest == j) ::
      Message(outs[t].signal, i) in s.inbox[j]
  }

  lemma ArrivedStep(s: System, e: Event, outs: seq<Sending>)
    requires WellFormed(s) && Enabled(s, e) && Arrived(s, e.i, outs)
    ensures Arrived(Next(s, e), e.i, outs + React(s, e).1)
  {
    var all, r := outs + React(s, e).1, Next(s, e);
    forall t, j | 0 <= t < |all| && 0 <= j < |r.inbox| && j != e.i && (all[t].ToAll? || all[t].dest == j)
      ensures Message(all[t].signal, e.i) in r.inbox[j]
    {
      if t < |outs| {
        assert Message(outs[t].signal, e.i) in s.inbox[j];
        StaysPending(s, e, j, Message(all[t].signal, e.i));
      } else {
        Delivered(s, e, t - |outs|, j);
      }
    }
  }

  lemma {:induction false} OwnInbox(inbox: seq<Inbox>, from: nat, outs: seq<Sending>)
    requires from < |inbox|
    ensures PostAll(inbox, from, outs)[from] == inbox[from]
    decreases |outs|
  {
    if outs != [] {
      OwnInbox(Post(inbox, from, outs[0]), from, outs[1..]);
    }
  }

  lemma InboxStep(s: System, e: Event)
    requires WellFormed(s) && Enabled(s, e)
    ensures Next(s, e).inbox[e.i] == s.inbox[e.i] - if e.Take? then multiset{e.m} else multiset{}
  {
    var taken := if e.Take? then s.inbox[e.i := s.inbox[e.i] - multiset{e.m}] else s.inbox;
    OwnInbox(taken, e.i, React(s, e).1);
  }

  /** From s, the node's own events have used up these messages of its inbox and delivered these sendings. */
  ghost predicate Plays(s: System, r: System, i: nat, q: seq<Message>, outs: seq<Sending>)
    requires WellFormed(s) && WellFormed(r) && i < |s.nodes| == |r.nodes|
  {
    r.inbox[i] == s.inbox[i] - multiset(q) && Arrived(r, i, outs)
  }

  lemma PlaysOne(s: System, r: System, e: Event, q: seq<Message>, outs: seq<Sending>)
    requires WellFormed(s) && WellFormed(r) && e.i < |s.nodes| == |r.nodes| && Can(r.nodes[e.i], e)
    requires Plays(s, r, e.i, q, outs) && multiset(q) + (if e.Take? then multiset{e.m} else multiset{}) <= s.inbox[e.i]
    ensures Enabled(r, e)
    ensures Next(r, e).inbox[e.i] ==
            s.inbox[e.i] - (multiset(q) + if e.Take? then multiset{e.m} else multiset{})
    ensures Arrived(Next(r, e), e.i, outs + React(r, e).1)
  {
    if e.Take? {
      assert (multiset(q) + multiset{e.m})[e.m] <= s.inbox[e.i][e.m];
      assert e.m in r.inbox[e.i];
    }
    InboxStep(r, e);
    ArrivedStep(r, e, outs);
  }

  /** These events of node i extend the run. */
  ghost predicate Extends(n: nat, es: seq<Event>, i: nat, w: seq<Event>)
    requires Runs(n, es) && i < n
  {
    Runs(n, es + w) && Plays(Reach(n, es), Reach(n, es + w), i, Taken(w), Play(Reach(n, es).nodes[i], w).1)
  }

  lemma PlaysStep(s: System, r: System, nd: Node, w: seq<Event>, e: Event)
    requires WellFormed(s) && WellFormed(r) && e.i < |s.nodes| == |r.nodes|
    requires Plays(s, r, e.i, Taken(w), Play(nd, w).1) && Plain(r.nodes[e.i]) == Plain(Play(nd, w).0)
    requires CanPlay(nd, w + [e]) && multiset(Taken(w + [e])) <= s.inbox[e.i]
    ensures Enabled(r, e) && Plays(s, Next(r, e), e.i, Taken(w + [e]), Play(nd, w + [e]).1)
  {
    TakenOne(w, e);
    PlayOne(nd, w, e);
    StampsDoNotMatter(r.nodes[e.i], Play(nd, w).0, e, r.now);
    PlaysOne(s, r, e, Taken(w), Play(nd, w).1);
  }

  /** One more event: the run goes on in the state it leads to. */
  lemma PlaysOn(n: nat, v: seq<Event>, e: Event, s: System, q: seq<Message>, outs: seq<Sending>)
    requires Runs(n, v) && e.i < n && WellFormed(s) && |s.nodes| == n
    requires Enabled(Reach(n, v), e) && Plays(s, Next(Reach(n, v), e), e.i, q, outs)
    ensures Runs(n, v + [e]) && Plays(s, Reach(n, v + [e]), e.i, q, outs)
  {
    OneMore(n, v, e);
  }

  lemma PlaysNext(n: nat, es: seq<Event>, w: seq<Event>, e: Event)
    requires Runs(n, es) && e.i < n && Extends(n, es, e.i, w) && (forall k | 0 <= k < |w| :: w[k].i == e.i)
    requires CanPlay(Reach(n, es).nodes[e.i], w + [e]) && multiset(Taken(w + [e])) <= Reach(n, es).inbox[e.i]
    ensures Enabled(Reach(n, es + w), e)
    ensures Plays(Reach(n, es), Next(Reach(n, es + w), e), e.i, Taken(w + [e]),
                  Play(Reach(n, es).nodes[e.i], w + [e]).1)
    ensures Mine(w, e.i) == w
  {
    OwnOnly(w, e.i);
    NodeFollows(n, es, w, e.i);
    PlaysStep(Reach(n, es), Reach(n, es + w), Reach(n, es).nodes[e.i], w, e);
  }

  lemma ExtendsOne(n: nat, es: seq<Event>, w: seq<Event>, e: Event)
    requires Runs(n, es) && e.i < n && Extends(n, es, e.i, w) && (forall k | 0 <= k < |w| :: w[k].i == e.i)
    requires CanPlay(Reach(n, es).nodes[e.i], w + [e]) && multiset(Taken(w + [e])) <= Reach(n, es).inbox[e.i]
    ensures Extends(n, es, e.i, w + [e])
  {
    PlaysNext(n, es, w, e);
    PlaysOn(n, es + w, e, Reach(n, es), Taken(w + [e]), Play(Reach(n, es).nodes[e.i], w + [e]).1);
    Associate(es, w, [e]);
  }

  lemma {:induction false} OwnOnly(w: seq<Event>, i: nat)
    requires forall k | 0 <= k < |w| :: w[k].i == i
    ensures Mine(w, i) == w
  {
    if w != [] {
      OwnOnly(w[..|w| - 1], i);
    }
  }

  /** Events that the node can play, and whose messages are pending at it, extend the run. */
  lemma {:induction false} PlayRuns(n: nat, es: seq<Event>, i: nat, w: seq<Event>)
    requires Runs(n, es) && i < n && (forall k | 0 <= k < |w| :: w[k].i == i)
    requires CanPlay(Reach(n, es).nodes[i], w) && multiset(Taken(w)) <= Reach(n, es).inbox[i]
    ensures Extends(n, es, i, w)
    decreases |w|
  {
    if w == [] {
      NothingExtends(n, es, i);
    } else {
      var w', e := w[..|w| - 1], w[|w| - 1];
      LastApart(w);
      TakenOne(w', e);
      PlayRuns(n, es, i, w');
      ExtendsOne(n, es, w', e);
    }
  }

  lemma NothingExtends(n: nat, es: seq<Event>, i: nat)
    requires Runs(n, es) && i < n
    ensures Extends(n, es, i, [])
  {
    assert es + [] == es;
  }

  lemma {:induction false} TakenAll(i: nat, q: seq<Message>)
    ensures Taken(TakeAll(i, q)) == q
  {
    if q != [] {
      var before, m := q[..|q| - 1], q[|q| - 1];
      TakenAll(i, before);
      assert TakeAll(i, q) == TakeAll(i, before) + [Take(i, m)];
      TakenOne(TakeAll(i, before), Take(i, m));
    }
  }

  lemma StepsTake(i: nat, s: State, firstLeader: nat, q: seq<Message>)
    ensures Taken(Steps(i, s, firstLeader, q)) == q
    ensures forall k | 0 <= k < |Steps(i, s, firstLeader, q)| :: Steps(i, s, firstLeader, q)[k].i == i
  {
    StepsOf(i, Opens(s), q, Leaves(s, After(Ready(s, firstLeader), q)));
  }

  lemma StepsOf(i: nat, opens: bool, q: seq<Message>, leaves: bool)
    ensures var es := (if opens then [Open(i)] else []) + TakeAll(i, q) + (if leaves then [Depart(i)] else []);
            Taken(es) == q && forall k | 0 <= k < |es| :: es[k].i == i
  {
    var open, depart := if opens then [Open(i)] else [], if leaves then [Depart(i)] else [];
    TakenBetween(open, i, q, depart);
    AllOf(open, TakeAll(i, q), i);
    AllOf(open + TakeAll(i, q), depart, i);
  }

  lemma TakenBetween(a: seq<Event>, i: nat, q: seq<Message>, b: seq<Event>)
    requires Taken(a) == [] && Taken(b) == []
    ensures Taken(a + TakeAll(i, q) + b) == q
  {
    TakenAll(i, q);
    TakenConcat(a, TakeAll(i, q));
    TakenConcat(a + TakeAll(i, q), b);
  }

  lemma AllOf(a: seq<Event>, b: seq<Event>, i: nat)
    requires (forall k | 0 <= k < |a| :: a[k].i == i) && (forall k | 0 <= k < |b| :: b[k].i == i)
    ensures forall k | 0 <= k < |a + b| :: (a + b)[k].i == i
  {
  }

  lemma {:induction false} TakenConcat(a: seq<Event>, b: seq<Event>)
    ensures Taken(a + b) == Taken(a) + Taken(b)
  {
    if b == [] {
      assert a + b == a;
    } else {
      var b', e := b[..|b| - 1], b[|b| - 1];
      LastApart(b);
      Associate(a, b', [e]);
      TakenConcat(a, b');
      TakenOne(a + b', e);
      TakenOne(b', e);
    }
  }

  /** A stay in a state is a stretch of a run: from any reachable state in which node i has just entered s and the
      messages are pending at it, opening, taking them and leaving are enabled in turn. The node then is where the
      stay leads, just the messages it took are gone from its inbox, and everything it sent is pending at its
      destination. */
  lemma EpisodeInRun(n: nat, es: seq<Event>, i: nat, s: State, firstLeader: nat, q: seq<Message>,
                     to: State, firstLeader': nat, outs: seq<Sending>)
    requires Runs(n, es) && i < n && Episode(s, firstLeader, q, to, firstLeader', outs)
    requires Plain(Reach(n, es).nodes[i]) == Plain(Entered(s, firstLeader))
    requires multiset(q) <= Reach(n, es).inbox[i]
    ensures var w := Steps(i, s, firstLeader, q);
            && Runs(n, es + w)
            && Arrives(Reach(n, es + w).nodes[i], s, firstLeader, q, to, firstLeader')
            && Reach(n, es + w).inbox[i] == Reach(n, es).inbox[i] - multiset(q)
            && Arrived(Reach(n, es + w), i, outs)
            && Output(n, es + w, i) == Output(n, es, i) + outs
  {
    var w, nd := Steps(i, s, firstLeader, q), Reach(n, es).nodes[i];
    StepsTake(i, s, firstLeader, q);
    EpisodePlays(i, s, firstLeader, q, to, firstLeader', outs);
    PlayStamps(nd, Entered(s, firstLeader), w);
    PlayRuns(n, es, i, w);
    OwnOnly(w, i);
    EpisodeInterleaved(n, es, w, i, s, firstLeader, q, to, firstLeader', outs);
  }

  // ---- a whole career -----------------------------------------------------------------------------------------------

  /** A stay that has come to its end. */
  datatype Stay = Stay(s: State, firstLeader: nat, q: seq<Message>, to: State, next: nat)

  predicate Complete(x: Stay) {
    x.to != x.s && Episode(x.s, x.firstLeader, x.q, x.to, x.next, Outs(x.s, x.firstLeader, x.q))
  }

  /** The state and the first leader heard after these stays. */
  function Reached(xs: seq<Stay>): (State, nat) {
    if xs == [] then (Start, 0) else (xs[|xs| - 1].to, xs[|xs| - 1].next)
  }

  /** One stay after the other, beginning with START. */
  predicate Career(xs: seq<Stay>) {
    xs == [] || (Career(xs[..|xs| - 1]) && Complete(xs[|xs| - 1])
                 && Reached(xs[..|xs| - 1]) == (xs[|xs| - 1].s, xs[|xs| - 1].firstLeader))
  }

  function CareerOuts(xs: seq<Stay>): seq<Sending> {
    if xs == [] then []
    else
      var x := xs[|xs| - 1];
      CareerOuts(xs[..|xs| - 1]) + Outs(x.s, x.firstLeader, x.q)
  }

  function CareerSteps(i: nat, xs: seq<Stay>): seq<Event> {
    if xs == [] then []
    else
      var x := xs[|xs| - 1];
      CareerSteps(i, xs[..|xs| - 1]) + Steps(i, x.s, x.firstLeader, x.q)
  }

  lemma CareerGrows(xs: seq<Stay>, x: Stay)
    requires Career(xs) && Complete(x) && Reached(xs) == (x.s, x.firstLeader)
    ensures Career(xs + [x]) && CareerOuts(xs + [x]) == CareerOuts(xs) + Outs(x.s, x.firstLeader, x.q)
    ensures Reached(xs + [x]) == (x.to, x.next)
  {
    assert (xs + [x])[..|xs|] == xs;
  }

  lemma StayPlays(i: nat, nd: Node, x: Stay)
    requires Complete(x) && Plain(nd) == Plain(Entered(x.s, x.firstLeader))
    ensures var es := Steps(i, x.s, x.firstLeader, x.q);
            CanPlay(nd, es) && Plain(Play(nd, es).0) == Plain(Entered(x.to, x.next))
            && Play(nd, es).1 == Outs(x.s, x.firstLeader, x.q)
  {
    EpisodePlays(i, x.s, x.firstLeader, x.q, x.to, x.next, Outs(x.s, x.firstLeader, x.q));
    PlayStamps(nd, Entered(x.s, x.firstLeader), Steps(i, x.s, x.firstLeader, x.q));
  }

  lemma {:induction false} CareerPlays(i: nat, xs: seq<Stay>)
    requires Career(xs)
    ensures var (nd, es) := (Entered(Start, 0), CareerSteps(i, xs));
            CanPlay(nd, es) && Plain(Play(nd, es).0) == Plain(Entered(Reached(xs).0, Reached(xs).1))
            && Play(nd, es).1 == CareerOuts(xs)
  {
    if xs != [] {
      var before, x := xs[..|xs| - 1], xs[|xs| - 1];
      CareerPlays(i, before);
      StayPlays(i, Play(Entered(Start, 0), CareerSteps(i, before)).0, x);
      PlayConcat(Entered(Start, 0), CareerSteps(i, before), Steps(i, x.s, x.firstLeader, x.q));
    }
  }

  /** In any run of any number of nodes in which node i's own events are those of a career, the node stands where the
      career leads and has sent what the career sends, from its first multicast on. */
  lemma CareerInRuns(n: nat, es: seq<Event>, i: nat, xs: seq<Stay>)
    requires Runs(n, es) && i < n && Career(xs) && Mine(es, i) == CareerSteps(i, xs)
    ensures Plain(Reach(n, es).nodes[i]) == Plain(Entered(Reached(xs).0, Reached(xs).1))
    ensures Output(n, es, i) == CareerOuts(xs)
  {
    CareerPlays(i, xs);
    FromTheStart(n, es, i);
    EmptyEnds(CareerOuts(xs));
  }

  lemma FromTheStart(n: nat, es: seq<Event>, i: nat)
    requires Runs(n, es) && i < n
    ensures Follows(n, es, i, Entered(Start, 0), Mine(es, i), [])
  {
    EmptyEnds(es);
    NodeFollows(n, [], es, i);
  }
}
