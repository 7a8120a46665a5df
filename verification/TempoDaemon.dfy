/** The daemon object: its state methods read the message queue in polling loops and send as they go. What each does is
    an episode of the state, and so a stretch of the runs of the whole system. */
module TempoDaemon {
  import opened TempoNode
  import opened TempoElection
  import opened TempoRuns
  import opened TempoEpisodes
  import opened TempoStays
  import opened Seqs
  import Sync = TempoSync

  function Flat(batches: seq<seq<Message>>): seq<Message> {
    if batches == [] then [] else batches[0] + Flat(batches[1..])
  }

  /** Having taken q from its queue, the reader is at nd and has answered so. */
  predicate HasRead(base: Node, q: seq<Message>, nd: Node, answers: seq<Sending>) {
    ReadThrough(base, q) && nd == After(base, q) && answers == Sent(base, q)
  }

  /** What a waiting state has made of its messages when its wait is over. */
  function Then(s: State, firstLeader: nat, found: bool, m: Message): (Node, seq<Sending>) {
    if found then Handle(Ready(s, firstLeader), m, 0) else (Ready(s, firstLeader), [])
  }

  class TimeDaemon {
    var state: State
    var firstLeader: nat
    /** Messages waiting in the general queue. */
    var queue: seq<Message>
    /** What the listener threads will put into the queue, sleep by sleep. */
    var arrivals: seq<seq<Message>>
    /** Everything sent so far. */
    var sent: seq<Sending>

    constructor (queue: seq<Message>, arrivals: seq<seq<Message>>)
      ensures state == Start && sent == [] && this.queue == queue && this.arrivals == arrivals
    {
      state, firstLeader, sent := Start, 0, [];
      this.queue, this.arrivals := queue, arrivals;
    }

    /** Every message still to be read, in the order it will be. */
    function Stream(): seq<Message>
      reads this
    {
      queue + Flat(arrivals)
    }

    method Send(out: Sending)
      modifies `sent
      ensures sent == old(sent) + [out]
    {
      sent := sent + [out];
    }

    /** get_nowait on a queue that is not empty. */
    method Get() returns (m: Message)
      requires queue != []
      modifies `queue
      ensures |queue| == |old(queue)| - 1
      ensures old(Stream()) != [] && m == old(Stream())[0] && Stream() == old(Stream())[1..]
    {
      m := queue[0];
      queue := queue[1..];
      assert Stream() == old(Stream())[1..];
    }

    /** Sleep on an empty queue; meanwhile some messages, or none, arrive. */
    method Sleep()
      requires queue == []
      modifies `queue, `arrivals
      ensures Stream() == old(Stream())
    {
      if arrivals != [] {
        queue, arrivals := arrivals[0], arrivals[1..];
      }
    }

    /** This call took the next k messages and no more: it stopped because it had what it wanted, or found the queue
        empty when its time was up. What it did is an episode of the state. */
    twostate predicate Played(s: State, k: nat)
      reads this
    {
      PlayedFrom(old(Stream()), old(firstLeader), old(sent), s, k)
    }

    /** The same, told from the messages, the first leader and the sendings the call began with. */
    ghost predicate PlayedFrom(stream: seq<Message>, leader: nat, before: seq<Sending>, s: State, k: nat)
      reads this
    {
      && k <= |stream| && Stream() == stream[k..]
      && (queue == [] || !Reading(After(Ready(s, leader), stream[..k]), s))
      && sent == before + Outs(s, leader, stream[..k])
      && Episode(s, leader, stream[..k], state, firstLeader, Outs(s, leader, stream[..k]))
    }

    /** Read until a message carries a wanted signal or, after this many sleeps, the queue is empty. */
    method WaitForSignals(signals: set<Signal>, sleeps: nat) returns (found: bool, message: Message, ghost k: nat)
      modifies `queue, `arrivals
      ensures k <= |old(Stream())| && Stream() == old(Stream())[k..]
      ensures found ==> k > 0 && message == old(Stream())[k - 1] && message.signal in signals
      ensures !found ==> queue == []
      ensures forall j | 0 <= j < (if found then k - 1 else k) :: old(Stream())[j].signal !in signals
    {
      found, message, k := false, Message(ACK, 0), 0;
      var polls := sleeps;
      while !found && (queue != [] || polls > 0)
        invariant k <= |old(Stream())| && Stream() == old(Stream())[k..]
        invariant found ==> k > 0 && message == old(Stream())[k - 1] && message.signal in signals
        invariant forall j | 0 <= j < (if found then k - 1 else k) :: old(Stream())[j].signal !in signals
        decreases polls, |queue|
      {
        if queue == [] {
          Sleep();
          polls := polls - 1;
        } else {
          var m := Get();
          k := k + 1;
          if m.signal in signals {
            found, message := true, m;
          }
        }
      }
    }

    method StartState(sleeps: nat) returns (ghost k: nat)
      requires state == Start
      modifies this
      ensures Played(Start, k)
    {
      Send(ToAll(LEADERREQ));
      var found, message;
      found, message, k := WaitForSignals({LEADERACK}, sleeps);
      Waited(Start, old(firstLeader), old(Stream()), k, found, message);
      if found {
        firstLeader := message.from;
        state := Consistency;
      } else {
        state := NoLeader;
      }
      ghost var r := Then(Start, old(firstLeader), found, message);
      EmptyEnds(old(sent) + Greeting(Start));
      EmptyEnds(old(sent) + Greeting(Start) + r.1);
      Ended(old(Stream()), old(firstLeader), old(sent), Start, k, r.0, r.1);
    }

    method ConsistencyState(sleeps: nat) returns (ghost k: nat)
      requires state == Consistency
      modifies this
      ensures Played(Consistency, k)
    {
      var found, message;
      found, message, k := WaitForSignals({LEADERACK}, sleeps);
      Waited(Consistency, old(firstLeader), old(Stream()), k, found, message);
      if found {
        Send(To(QUIT, firstLeader));
      }
      state := Follower;
      ghost var r := Then(Consistency, old(firstLeader), found, message);
      EmptyEnds(old(sent) + Greeting(Consistency));
      EmptyEnds(old(sent) + Greeting(Consistency) + r.1);
      Ended(old(Stream()), old(firstLeader), old(sent), Consistency, k, r.0, r.1);
    }

    method NoLeaderState(sleeps: nat) returns (ghost k: nat)
      requires state == NoLeader
      modifies this
      ensures Played(NoLeader, k)
    {
      var found, message;
      found, message, k := WaitForSignals({LEADERREQ, LEADERUP, ELECTION}, sleeps);
      Waited(NoLeader, old(firstLeader), old(Stream()), k, found, message);
      state := if found then Follower else Leader;
      ghost var r := Then(NoLeader, old(firstLeader), found, message);
      EmptyEnds(old(sent) + Greeting(NoLeader));
      EmptyEnds(old(sent) + Greeting(NoLeader) + r.1);
      Ended(old(Stream()), old(firstLeader), old(sent), NoLeader, k, r.0, r.1);
    }

    method ConflictState(sleeps: nat) returns (ghost k: nat)
      requires state == Conflict
      modifies this
      ensures Played(Conflict, k)
    {
      Send(ToAll(RESOLVE));
      var found, message;
      found, message, k := WaitForSignals({LEADERACK}, sleeps);
      Waited(Conflict, old(firstLeader), old(Stream()), k, found, message);
      if found {
        Send(To(QUIT, message.from));
      }
      Send(ToAll(LEADERUP));
      state := Leader;
      ghost var r := Then(Conflict, old(firstLeader), found, message);
      EmptyEnds(old(sent) + Greeting(Conflict));
      EmptyEnds(old(sent) + Greeting(Conflict) + r.1);
      Ended(old(Stream()), old(firstLeader), old(sent), Conflict, k, r.0, r.1);
    }

    /** A stay that has sent its greeting, its answers and its parting multicast, and gone on. */
    lemma Ended(stream: seq<Message>, leader: nat, before: seq<Sending>, s: State, k: nat, nd: Node,
                answers: seq<Sending>)
      requires k <= |stream| && Stream() == stream[k..] && HasRead(Ready(s, leader), stream[..k], nd, answers)
      requires queue == [] || !Reading(nd, s)
      requires state == Onward(s, nd).0 && firstLeader == nd.firstLeader
      requires sent == ((before + Greeting(s)) + answers) + Onward(s, nd).1
      ensures PlayedFrom(stream, leader, before, s, k)
    {
      Associate(before, Greeting(s), answers);
      Associate(before, Greeting(s) + answers, Onward(s, nd).1);
    }

    /** Between two messages of a reading loop that began with stream q, with `before` and the greeting sent. */
    ghost predicate Midway(nd: Node, base: Node, q: seq<Message>, before: seq<Sending>, k: nat)
      reads this
    {
      && state == base.state && firstLeader == base.firstLeader
      && k <= |q| && Stream() == q[k..]
      && HasRead(base, q[..k], nd, Sent(base, q[..k])) && sent == before + Sent(base, q[..k])
    }

    /** One more message taken and answered. */
    lemma Took(nd: Node, nd': Node, base: Node, q: seq<Message>, before: seq<Sending>, k: nat)
      requires state == base.state && firstLeader == base.firstLeader
      requires k < |q| && Stream() == q[k..][1..]
      requires HasRead(base, q[..k], nd, Sent(base, q[..k])) && Reading(nd, base.state)
      requires sent == before + Sent(base, q[..k]) + Handle(nd, q[k], 0).1
      requires nd' == Handle(nd, q[k], 0).0
      ensures Midway(nd', base, q, before, k + 1)
    {
      TakeOne(base, q, k);
      DropOne(q, k);
      Associate(before, Sent(base, q[..k]), Handle(nd, q[k], 0).1);
    }

    /** Find the queue empty between two messages of a reading loop. */
    method Poll(ghost nd: Node, ghost base: Node, ghost q: seq<Message>, ghost before: seq<Sending>, ghost k: nat)
      requires queue == [] && Midway(nd, base, q, before, k)
      modifies `queue, `arrivals
      ensures Midway(nd, base, q, before, k)
    {
      Sleep();
    }

    method FollowerState(sleeps: nat) returns (ghost k: nat)
      requires state == Follower
      modifies this
      ensures Played(Follower, k)
    {
      Send(ToAll(FOLLOWERUP));
      ghost var base, before := Ready(Follower, firstLeader), sent;
      var electionEvent;
      electionEvent, k := FollowerReads(sleeps);
      if electionEvent {
        state := Accept;
      } else {
        Send(ToAll(ELECTION));
        state := Candidate;
      }
      EmptyEnds(before + Sent(base, old(Stream())[..k]));
      Ended(old(Stream()), old(firstLeader), old(sent), Follower, k, base.(accepted := electionEvent),
            Sent(base, old(Stream())[..k]));
    }

    /** The follower's loop, up to an ELECTION or the end of its time. */
    method FollowerReads(sleeps: nat) returns (electionEvent: bool, ghost k: nat)
      requires state == Follower
      modifies this
      ensures electionEvent || queue == []
      ensures var base := Ready(Follower, old(firstLeader));
              Midway(base.(accepted := electionEvent), base, old(Stream()), old(sent), k)
    {
      k := 0;
      electionEvent := false;
      var polls := sleeps;
      ghost var base := Ready(Follower, firstLeader);
      while !electionEvent && (queue != [] || polls > 0)
        invariant Midway(base.(accepted := electionEvent), base, old(Stream()), old(sent), k)
        decreases polls, |queue|
      {
        if queue == [] {
          Poll(base.(accepted := electionEvent), base, old(Stream()), old(sent), k);
          polls := polls - 1;
        } else {
          electionEvent := FollowerTurn(base, old(Stream()), old(sent), k);
          k := k + 1;
        }
      }
    }

    /** One turn of the follower's loop. */
    method FollowerTurn(ghost base: Node, ghost q: seq<Message>, ghost before: seq<Sending>, ghost k: nat)
      returns (electionEvent: bool)
      requires queue != [] && base == Ready(Follower, base.firstLeader)
      requires Midway(base.(accepted := false), base, q, before, k)
      modifies `queue, `sent
      ensures |queue| == |old(queue)| - 1 && Midway(base.(accepted := electionEvent), base, q, before, k + 1)
    {
      var m := Get();
      electionEvent := FollowerHandles(m, base);
      Took(base, base.(accepted := electionEvent), base, q, before, k);
    }

    method FollowerHandles(m: Message, ghost nd: Node) returns (electionEvent: bool)
      requires nd.state == Follower && !nd.accepted
      modifies `sent
      ensures Handle(nd, m, 0).0 == nd.(accepted := electionEvent) && sent == old(sent) + Handle(nd, m, 0).1
    {
      electionEvent := false;
      if m.signal == LEADERUP {
        Send(To(FOLLOWERUP, m.from));
      } else if m.signal == ELECTION {
        Send(To(ACCEPT, m.from));
        electionEvent := true;
      }
    }

    method AcceptState(sleeps: nat) returns (ghost k: nat)
      requires state == Accept
      modifies this
      ensures Played(Accept, k)
    {
      k := 0;
      var polls := sleeps;
      ghost var base, before := Ready(Accept, firstLeader), sent;
      while queue != [] || polls > 0
        invariant Midway(base, base, old(Stream()), before, k)
        decreases polls, |queue|
      {
        if queue == [] {
          Poll(base, base, old(Stream()), before, k);
          polls := polls - 1;
        } else {
          AcceptTurn(base, old(Stream()), before, k);
          k := k + 1;
        }
      }
      state := Follower;
      EmptyEnds(before + Sent(base, old(Stream())[..k]));
      Ended(old(Stream()), old(firstLeader), old(sent), Accept, k, base, Sent(base, old(Stream())[..k]));
    }

    /** One turn of the ACCEPT state's loop. */
    method AcceptTurn(ghost base: Node, ghost q: seq<Message>, ghost before: seq<Sending>, ghost k: nat)
      requires queue != [] && base == Ready(Accept, base.firstLeader) && Midway(base, base, q, before, k)
      modifies `queue, `sent
      ensures |queue| == |old(queue)| - 1 && Midway(base, base, q, before, k + 1)
    {
      var m := Get();
      AcceptHandles(m, base);
      Took(base, base, base, q, before, k);
    }

    method AcceptHandles(m: Message, ghost nd: Node)
      requires nd.state == Accept
      modifies `sent
      ensures Handle(nd, m, 0).0 == nd && sent == old(sent) + Handle(nd, m, 0).1
    {
      if m.signal == ELECTION {
        Send(To(REFUSE, m.from));
      } else if m.signal == LEADERUP {
        Send(To(FOLLOWERUP, m.from));
      }
    }

    method CandidateState(sleeps: nat) returns (ghost k: nat)
      requires state == Candidate
      modifies this
      ensures Played(Candidate, k)
    {
      ghost var base := Ready(Candidate, firstLeader);
      var becomeFollowerEvent;
      becomeFollowerEvent, k := CandidateReads(sleeps);
      state := if becomeFollowerEvent then Follower else Leader;
      EmptyEnds(old(sent));
      EmptyEnds(old(sent) + Sent(base, old(Stream())[..k]));
      Ended(old(Stream()), old(firstLeader), old(sent), Candidate, k, base.(marked := becomeFollowerEvent),
            Sent(base, old(Stream())[..k]));
    }

    /** The candidate's loop; once told to step back, or out of time, it ends at the next empty queue. */
    method CandidateReads(sleeps: nat) returns (becomeFollowerEvent: bool, ghost k: nat)
      requires state == Candidate
      modifies this
      ensures queue == []
      ensures var base := Ready(Candidate, old(firstLeader));
              Midway(base.(marked := becomeFollowerEvent), base, old(Stream()), old(sent), k)
    {
      k := 0;
      becomeFollowerEvent := false;
      var polls := sleeps;
      ghost var base := Ready(Candidate, firstLeader);
      while queue != [] || polls > 0
        invariant Midway(base.(marked := becomeFollowerEvent), base, old(Stream()), old(sent), k)
        decreases polls, |queue|
      {
        if queue == [] {
          Poll(base.(marked := becomeFollowerEvent), base, old(Stream()), old(sent), k);
          polls := polls - 1;
        } else {
          becomeFollowerEvent := CandidateTurn(becomeFollowerEvent, base, old(Stream()), old(sent), k);
          k := k + 1;
        }
      }
    }

    /** One turn of the candidate's loop. */
    method CandidateTurn(told: bool, ghost base: Node, ghost q: seq<Message>, ghost before: seq<Sending>, ghost k: nat)
      returns (told': bool)
      requires queue != [] && base == Ready(Candidate, base.firstLeader)
      requires Midway(base.(marked := told), base, q, before, k)
      modifies `queue, `sent
      ensures |queue| == |old(queue)| - 1 && Midway(base.(marked := told'), base, q, before, k + 1)
    {
      ghost var nd := base.(marked := told);
      var m := Get();
      told' := CandidateHandles(m, told, nd);
      Marked(base, told, told');
      Took(nd, base.(marked := told'), base, q, before, k);
    }

    method CandidateHandles(m: Message, told: bool, ghost nd: Node) returns (told': bool)
      requires nd.state == Candidate && nd.marked == told
      modifies `sent
      ensures Handle(nd, m, 0).0 == nd.(marked := told') && sent == old(sent) + Handle(nd, m, 0).1
    {
      told' := told;
      if m.signal == ACCEPT {
        Send(To(ACK, m.from));
      } else if m.signal == ELECTION {
        Send(To(REFUSE, m.from));
      } else if m.signal == QUIT || m.signal == REFUSE {
        Send(To(ACK, m.from));
        told' := true;
      }
    }

    static lemma Marked(base: Node, a: bool, b: bool)
      ensures base.(marked := a).(marked := b) == base.(marked := b)
    {
    }

    /** The leader's message thread, up to the message that stops it or so many polls of an empty queue. */
    method LeaderState(sleeps: nat) returns (followers: seq<nat>, ghost k: nat)
      requires state == Leader
      modifies this
      ensures Played(Leader, k)
      ensures followers == Roster(old(Stream())[..k]) && Lists(followers, old(Stream())[..k])
    {
      Send(ToAll(LEADERUP));
      followers, k := [], 0;
      var stateChange, polls := Stays, sleeps;
      ghost var base, before := Ready(Leader, firstLeader), sent;
      while stateChange == Stays && (queue != [] || polls > 0)
        invariant Midway(base.(exit := stateChange, followers := followers), base, old(Stream()), before, k)
        decreases polls, |queue|
      {
        if queue == [] {
          Poll(base.(exit := stateChange, followers := followers), base, old(Stream()), before, k);
          polls := polls - 1;
        } else {
          followers, stateChange := LeaderTurn(followers, base, old(Stream()), before, k);
          k := k + 1;
        }
      }
      if stateChange != Stays {
        state := if stateChange == ToConflict then Conflict else Follower;
      }
      EmptyEnds(before + Sent(base, old(Stream())[..k]));
      Ended(old(Stream()), old(firstLeader), old(sent), Leader, k,
            base.(exit := stateChange, followers := followers), Sent(base, old(Stream())[..k]));
      StayLists(old(firstLeader), old(Stream())[..k]);
    }

    /** A round of fix_follower_clocks: whatever the message thread has listed by then is asked for its time, and if it
        has listed nobody nothing is done. */
    method LeaderRound(sleeps: nat, sentAt: map<nat, real>, replies: seq<Sync.Reply>)
      returns (asked: bool, ok: bool, diffs: map<nat, real>, ghost k: nat)
      requires state == Leader && forall m | m in Stream() && m.signal == FOLLOWERUP :: m.from in sentAt
      modifies this
      ensures Played(Leader, k)
      ensures asked <==> Heard(old(Stream())[..k], FOLLOWERUP)
      ensures var followers := Roster(old(Stream())[..k]);
              asked ==>
                var taken := Sync.Taken(followers, replies, 0);
                && Sync.TakesReplies(followers, replies, taken, ok)
                && (forall f | f in followers :: f in sentAt)
                && (ok ==> Sync.Estimates(diffs, followers, sentAt, replies, taken))
    {
      var followers;
      followers, k := LeaderState(sleeps);
      asked := followers != [];
      ok, diffs := true, map[];
      RosterEmpty(old(Stream())[..k]);
      if asked {
        RosterOfStream(old(Stream()), k);
        ok, diffs := Sync.GetFollowerDiffs(followers, sentAt, replies);
      }
    }

    /** One turn of the leader's message loop. */
    method LeaderTurn(followers: seq<nat>, ghost base: Node, ghost q: seq<Message>, ghost before: seq<Sending>,
                      ghost k: nat) returns (followers': seq<nat>, stateChange: Exit)
      requires queue != [] && base == Ready(Leader, base.firstLeader)
      requires Midway(base.(exit := Stays, followers := followers), base, q, before, k)
      modifies `queue, `sent
      ensures |queue| == |old(queue)| - 1
      ensures Midway(base.(exit := stateChange, followers := followers'), base, q, before, k + 1)
    {
      ghost var nd := base.(exit := Stays, followers := followers);
      var m := Get();
      followers', stateChange := LeaderHandles(m, followers, nd);
      Took(nd, base.(exit := stateChange, followers := followers'), base, q, before, k);
    }

    method LeaderHandles(m: Message, followers: seq<nat>, ghost nd: Node)
      returns (followers': seq<nat>, stateChange: Exit)
      requires nd.state == Leader && nd.exit == Stays && nd.followers == followers
      modifies `sent
      ensures Handle(nd, m, 0).0 == nd.(followers := followers', exit := stateChange)
      ensures sent == old(sent) + Handle(nd, m, 0).1
    {
      followers', stateChange := followers, Stays;
      if m.signal == FOLLOWERUP {
        if m.from !in followers {
          followers' := followers + [m.from];
        }
      }
      if m.signal == LEADERREQ || m.signal == RESOLVE {
        Send(To(LEADERACK, m.from));
      } else if m.signal == ELECTION || m.signal == LEADERUP {
        Send(To(QUIT, m.from));
      } else if m.signal == QUIT {
        stateChange := ToFollower;
      } else if m.signal == CONFLICT {
        stateChange := ToConflict;
      }
    }

    /** One turn of the run loop: one stay in the present state. `sleeps` is how often the state's loop finds the
        queue empty before it is to end; a leader's loop has no time limit, so a call that ends with LEADER is still
        in it. */
    method RunState(sleeps: nat) returns (ghost k: nat)
      modifies this
      ensures Played(old(state), k)
      ensures k <= |old(Stream())| && Ends(old(state), old(Stream())[..k], state)
    {
      match state {
        case Start => k := StartState(sleeps);
        case Consistency => k := ConsistencyState(sleeps);
        case NoLeader => k := NoLeaderState(sleeps);
        case Follower => k := FollowerState(sleeps);
        case Accept => k := AcceptState(sleeps);
        case Candidate => k := CandidateState(sleeps);
        case Leader =>
          var followers;
          followers, k := LeaderState(sleeps);
        case Conflict => k := ConflictState(sleeps);
      }
      EpisodeEnds(old(state), old(firstLeader), old(Stream())[..k], state, firstLeader,
                  Outs(old(state), old(firstLeader), old(Stream())[..k]));
    }

    /** The run loop, for so many turns; it ends early, `polling`, in a turn that is still in its state's loop. */
    method Run(sleeps: seq<nat>) returns (ghost xs: seq<Stay>, polling: bool, ghost q: seq<Message>)
      requires state == Start && firstLeader == 0 && sent == []
      modifies this
      ensures Career(xs) && state == Reached(xs).0
      ensures !polling ==> sent == CareerOuts(xs)
      ensures polling ==> ReadThrough(Ready(state, Reached(xs).1), q)
                          && sent == CareerOuts(xs) + Outs(state, Reached(xs).1, q)
    {
      xs, polling, q := [], false, [];
      var turn := 0;
      while turn < |sleeps| && !polling
        invariant 0 <= turn <= |sleeps|
        invariant Career(xs) && state == Reached(xs).0
        invariant !polling ==> sent == CareerOuts(xs) && firstLeader == Reached(xs).1
        invariant polling ==> ReadThrough(Ready(state, Reached(xs).1), q)
                              && sent == CareerOuts(xs) + Outs(state, Reached(xs).1, q)
      {
        var before := state;
        ghost var stream, leader, k := Stream(), firstLeader, 0;
        k := RunState(sleeps[turn]);
        q := stream[..k];
        polling := state == before;
        if !polling {
          ghost var x := Stay(before, leader, q, state, firstLeader);
          CareerGrows(xs, x);
          xs := xs + [x];
        }
        turn := turn + 1;
      }
    }

    /** What a state method has done is a stretch of a run: if node i of a reachable system has just entered the state
        and the messages the call took are pending there, the system can go the same way, ends with node i in the
        daemon's new state, and has delivered what the daemon has sent. */
    twostate lemma PlayedInRun(n: nat, es: seq<Event>, i: nat, k: nat)
      requires Played(old(state), k)
      requires Runs(n, es) && i < n && Plain(Reach(n, es).nodes[i]) == Plain(Entered(old(state), old(firstLeader)))
      requires multiset(old(Stream())[..k]) <= Reach(n, es).inbox[i]
      ensures var q := old(Stream())[..k];
              var w := Steps(i, old(state), old(firstLeader), q);
              && Runs(n, es + w)
              && Arrives(Reach(n, es + w).nodes[i], old(state), old(firstLeader), q, state, firstLeader)
              && Reach(n, es + w).inbox[i] == Reach(n, es).inbox[i] - multiset(q)
              && Arrived(Reach(n, es + w), i, Outs(old(state), old(firstLeader), q))
              && sent == old(sent) + Outs(old(state), old(firstLeader), q)
    {
      var q := old(Stream())[..k];
      EpisodeInRun(n, es, i, old(state), old(firstLeader), q, state, firstLeader,
                   Outs(old(state), old(firstLeader), q));
    }
  }

  /** The signals that move a waiting state on. */
  function Wanted(s: State): set<Signal> {
    match s
    case Start => {LEADERACK}
    case Consistency => {LEADERACK}
    case NoLeader => {LEADERREQ, LEADERUP, ELECTION}
    case Conflict => {LEADERACK}
    case _ => {}
  }

  /** In a waiting state only a wanted signal changes anything. */
  lemma {:induction false} Unmoved(nd: Node, q: seq<Message>, k: nat)
    requires Listening(nd) && Wanted(nd.state) != {} && k <= |q|
    requires forall j | 0 <= j < k :: q[j].signal !in Wanted(nd.state)
    ensures After(nd, q[..k]) == nd && Sent(nd, q[..k]) == [] && ReadThrough(nd, q[..k])
  {
    if k > 0 {
      Unmoved(nd, q, k - 1);
      TakeOne(nd, q, k - 1);
      Ignored(nd, q[k - 1]);
    }
  }

  lemma Ignored(nd: Node, m: Message)
    requires Wanted(nd.state) != {} && m.signal !in Wanted(nd.state)
    ensures Handle(nd, m, 0) == (nd, [])
  {
  }

  lemma Waited(s: State, firstLeader: nat, q: seq<Message>, k: nat, found: bool, m: Message)
    requires Wanted(s) != {} && k <= |q|
    requires found ==> k > 0 && m == q[k - 1] && m.signal in Wanted(s)
    requires forall j | 0 <= j < (if found then k - 1 else k) :: q[j].signal !in Wanted(s)
    ensures var r := Then(s, firstLeader, found, m);
            HasRead(Ready(s, firstLeader), q[..k], r.0, r.1)
  {
    var nd := Ready(s, firstLeader);
    var idle := if found then k - 1 else k;
    Unmoved(nd, q, idle);
    if found {
      TakeOne(nd, q, idle);
    }
  }
}
