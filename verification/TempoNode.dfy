/** One time daemon: its states, the signals it exchanges, and what it does with each message, when a state is
    entered and when a state is left. */
module TempoNode {

  datatype Signal =
    | ACK | LEADERREQ | LEADERACK | LEADERUP | FOLLOWERUP | ELECTION | REFUSE | ACCEPT
    | SYNCREQ | SYNCRESP | CONFLICT | RESOLVE | QUIT | CLOCKREQ | CLOCKRESP

  datatype State = Start | Consistency | NoLeader | Follower | Accept | Candidate | Leader | Conflict

  datatype Message = Message(signal: Signal, from: nat)

  datatype Sending = To(signal: Signal, dest: nat) | ToAll(signal: Signal)

  /** `begun`: the state's opening multicast has been sent and its queue reader is running.
      `accepted`: a FOLLOWER has heard an ELECTION. `marked`: a CANDIDATE has been told to step back.
      `exit`: whether a LEADER's reader has stopped. `firstLeader`: the leader heard in START.
      `since`, `announcedAt` and `elected` record the node's current bid for leadership: when it entered CANDIDATE
      (or LEADER directly), when it announced itself, and which of the two ways it came. */
  datatype Node = Node(state: State, begun: bool, accepted: bool, marked: bool, exit: Exit,
                       firstLeader: nat, followers: seq<nat>, since: nat, announcedAt: nat, elected: bool)

  /** Whether a leader's reader has stopped, and the state that is to follow. */
  datatype Exit = Stays | ToFollower | ToConflict

  const INITIAL := Node(Start, false, false, false, Stays, 0, [], 0, 0, false)

  predicate Opens(s: State) {
    s.Start? || s.Follower? || s.Leader? || s.Conflict?
  }

  /** Move to another state; opening it is a separate step when it opens with a multicast. */
  function Enter(nd: Node, s: State): Node {
    nd.(state := s, begun := !Opens(s), accepted := false, marked := false, exit := Stays, followers := [])
  }

  /** Enter LEADER without having been a candidate. */
  function Assume(nd: Node, now: nat): Node {
    Enter(nd, Leader).(since := now, elected := false)
  }

  /** Whether the state's reader is taking messages from the queue. */
  predicate Listening(nd: Node) {
    nd.begun && !(nd.state.Follower? && nd.accepted) && !(nd.state.Leader? && !nd.exit.Stays?)
  }

  /** The multicast that opens a state. */
  function Opening(nd: Node, now: nat): (Node, seq<Sending>) {
    match nd.state
    case Start => (nd.(begun := true), [ToAll(LEADERREQ)])
    case Follower => (nd.(begun := true), [ToAll(FOLLOWERUP)])
    case Leader => (nd.(begun := true, announcedAt := now), [ToAll(LEADERUP)])
    case Conflict => (nd.(begun := true), [ToAll(RESOLVE)])
    case _ => (nd, [])
  }

  function OnStart(nd: Node, m: Message): (Node, seq<Sending>) {
    if m.signal.LEADERACK? then (Enter(nd, Consistency).(firstLeader := m.from), []) else (nd, [])
  }

  function OnConsistency(nd: Node, m: Message): (Node, seq<Sending>) {
    if m.signal.LEADERACK? then (Enter(nd, Follower), [To(QUIT, nd.firstLeader)]) else (nd, [])
  }

  function OnNoLeader(nd: Node, m: Message): (Node, seq<Sending>) {
    if m.signal.LEADERREQ? || m.signal.LEADERUP? || m.signal.ELECTION? then (Enter(nd, Follower), []) else (nd, [])
  }

  function OnFollower(nd: Node, m: Message): (Node, seq<Sending>) {
    if m.signal.LEADERUP? then (nd, [To(FOLLOWERUP, m.from)])
    else if m.signal.ELECTION? then (nd.(accepted := true), [To(ACCEPT, m.from)])
    else (nd, [])
  }

  function OnAccept(nd: Node, m: Message): (Node, seq<Sending>) {
    if m.signal.ELECTION? then (nd, [To(REFUSE, m.from)])
    else if m.signal.LEADERUP? then (nd, [To(FOLLOWERUP, m.from)])
    else (nd, [])
  }

  function OnCandidate(nd: Node, m: Message): (Node, seq<Sending>) {
    if m.signal.ACCEPT? then (nd, [To(ACK, m.from)])
    else if m.signal.ELECTION? then (nd, [To(REFUSE, m.from)])
    else if m.signal.QUIT? || m.signal.REFUSE? then (nd.(marked := true), [To(ACK, m.from)])
    else (nd, [])
  }

  function OnLeader(nd: Node, m: Message): (Node, seq<Sending>) {
    if m.signal.FOLLOWERUP? then
      (nd.(followers := if m.from in nd.followers then nd.followers else nd.followers + [m.from]), [])
    else if m.signal.LEADERREQ? || m.signal.RESOLVE? then (nd, [To(LEADERACK, m.from)])
    else if m.signal.ELECTION? || m.signal.LEADERUP? then (nd, [To(QUIT, m.from)])
    else if m.signal.QUIT? then (nd.(exit := ToFollower), [])
    else if m.signal.CONFLICT? then (nd.(exit := ToConflict), [])
    else (nd, [])
  }

  function OnConflict(nd: Node, m: Message, now: nat): (Node, seq<Sending>) {
    if m.signal.LEADERACK? then (Assume(nd, now), [To(QUIT, m.from), ToAll(LEADERUP)]) else (nd, [])
  }

  /** What is done with one message taken from the queue; messages not mentioned are dropped. */
  function Handle(nd: Node, m: Message, now: nat): (Node, seq<Sending>) {
    match nd.state
    case Start => OnStart(nd, m)
    case Consistency => OnConsistency(nd, m)
    case NoLeader => OnNoLeader(nd, m)
    case Follower => OnFollower(nd, m)
    case Accept => OnAccept(nd, m)
    case Candidate => OnCandidate(nd, m)
    case Leader => OnLeader(nd, m)
    case Conflict => OnConflict(nd, m, now)
  }

  /** Leaving a state because its time is up or its reader has stopped. */
  function Leave(nd: Node, now: nat): (Node, seq<Sending>) {
    match nd.state
    case Start => (Enter(nd, NoLeader), [])
    case Consistency => (Enter(nd, Follower), [])
    case NoLeader => (Assume(nd, now), [])
    case Follower =>
      if nd.accepted then (Enter(nd, Accept), [])
      else (Enter(nd, Candidate).(since := now, elected := true), [ToAll(ELECTION)])
    case Accept => (Enter(nd, Follower), [])
    case Candidate => (Enter(nd, if nd.marked then Follower else Leader), [])
    case Leader => (Enter(nd, if nd.exit.ToConflict? then Conflict else Follower), [])
    case Conflict => (Assume(nd, now), [ToAll(LEADERUP)])
  }

  /** A leader leaves only after its reader has stopped; every other state may time out. */
  predicate MayLeave(nd: Node) {
    nd.begun && (nd.state.Leader? ==> !nd.exit.Stays?)
  }
}
