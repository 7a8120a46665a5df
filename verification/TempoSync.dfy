/** The averaging round: the leader estimates how far each follower's clock is from its own, and moves every clock,
    its own included, to the average. Times are exact reals in seconds; each adjustment is rounded to hundredths. */
module TempoSync {
  import Seqs

  // ---- rounding to hundredths -----------------------------------------------------------------------------

  /** Nearest integer, ties to even. */
  function RoundHalfEven(x: real): (n: int)
    ensures -0.5 <= n as real - x <= 0.5
    ensures n as real - x == 0.5 || n as real - x == -0.5 ==> n % 2 == 0
  {
    var f := x.Floor;
    var r := x - f as real;
    if r < 0.5 || (r == 0.5 && f % 2 == 0) then f else f + 1
  }

  /** An adjustment in seconds as a whole number of hundredths. */
  function Hundredths(x: real): int {
    RoundHalfEven(100.0 * x)
  }

  function Seconds(h: int): real {
    h as real / 100.0
  }

  lemma RoundingError(x: real)
    ensures -0.005 <= Seconds(Hundredths(x)) - x <= 0.005
  {
    var f := (100.0 * x).Floor;
    assert f as real <= 100.0 * x < (f + 1) as real;
  }

  lemma RoundTwice(h: int)
    ensures Hundredths(Seconds(h)) == h
  {
    assert 100.0 * Seconds(h) == h as real;
  }

  // ---- collecting the followers' times --------------------------------------------------------------------

  /** A CLOCKRESP taken from the queue: who sent it, the time it carries, and the leader's clock when it was taken. */
  datatype Reply = Reply(ip: nat, timestamp: real, readAt: real)

  function Estimate(t1: real, t2: real, t3: real): real {
    t2 - (t1 + t3) / 2.0
  }

  /** At most one reply of each sender is in the queue: every follower answers this round's request once. */
  predicate OneReplyEach(replies: seq<Reply>) {
    forall i, j | 0 <= i < j < |replies| :: replies[i].ip != replies[j].ip
  }

  /** Somebody's reply is among the first n. */
  predicate Heard(replies: seq<Reply>, n: nat, f: nat)
    requires n <= |replies|
  {
    exists k | 0 <= k < n :: replies[k].ip == f
  }

  predicate SecondReply(followers: seq<nat>, replies: seq<Reply>, k: nat)
    requires k < |replies|
  {
    replies[k].ip in followers && Heard(replies, k, replies[k].ip)
  }

  predicate NoSecond(followers: seq<nat>, replies: seq<Reply>, n: nat)
    requires n <= |replies|
  {
    forall k | 0 <= k < n :: !SecondReply(followers, replies, k)
  }

  predicate Complete(followers: seq<nat>, replies: seq<Reply>, n: nat)
    requires n <= |replies|
  {
    forall f | f in followers :: Heard(replies, n, f)
  }

  /** How many replies the leader takes, k having been taken: up to the first that completes them or is a second one. */
  function Taken(followers: seq<nat>, replies: seq<Reply>, k: nat): (n: nat)
    requires k <= |replies|
    ensures k <= n <= |replies|
    decreases |replies| - k
  {
    if k == |replies| || Complete(followers, replies, k) then k
    else if SecondReply(followers, replies, k) then k + 1
    else Taken(followers, replies, k + 1)
  }

  /** The leader takes n replies: no more than it needs, and not all it needs only if no more are there or, not `ok`, a
      follower that has been heard is heard again while others are still awaited; that raises a KeyError. */
  predicate TakesReplies(followers: seq<nat>, replies: seq<Reply>, n: nat, ok: bool) {
    && n <= |replies| && (forall m | 0 <= m < n :: !Complete(followers, replies, m))
    && (ok ==> NoSecond(followers, replies, n) && (n == |replies| || Complete(followers, replies, n)))
    && (!ok ==> n > 0 && NoSecond(followers, replies, n - 1) && SecondReply(followers, replies, n - 1))
  }

  /** What the leader should learn: an estimate for each follower whose reply is among the first n. */
  predicate Estimates(diffs: map<nat, real>, followers: seq<nat>, sentAt: map<nat, real>, replies: seq<Reply>, n: nat)
    requires n <= |replies| && forall f | f in followers :: f in sentAt
  {
    && (forall f | f in diffs :: f in followers && Heard(replies, n, f))
    && (forall k | 0 <= k < n && replies[k].ip in followers ::
          replies[k].ip in diffs
          && diffs[replies[k].ip] == Estimate(sentAt[replies[k].ip], replies[k].timestamp, replies[k].readAt))
  }

  /** get_follower_diffs: note the time of each request, then of each reply, until everyone has answered or the
      wait is over; senders that are not followers are ignored. */
  method GetFollowerDiffs(followers: seq<nat>, sentAt: map<nat, real>, replies: seq<Reply>)
      returns (ok: bool, diffs: map<nat, real>)
    requires Seqs.NoDup(followers) && forall f | f in followers :: f in sentAt
    ensures TakesReplies(followers, replies, Taken(followers, replies, 0), ok)
    ensures ok ==> Estimates(diffs, followers, sentAt, replies, Taken(followers, replies, 0))
  {
    var t1: map<nat, real> := map[];
    var i := 0;
    while i < |followers|
      invariant 0 <= i <= |followers|
      invariant forall f | f in t1 :: f in followers && t1[f] == sentAt[f]
      invariant forall k | 0 <= k < i :: followers[k] in t1
    {
      t1 := t1[followers[i] := sentAt[followers[i]]];
      i := i + 1;
    }
    var t2, t3;
    ok, t2, t3 := CollectReplies(followers, t1, replies);
    diffs := map[];
    if ok {
      diffs := EstimateAll(followers, t1, t2, t3);
      EstimatesOf(diffs, followers, sentAt, t1, t2, t3, replies, Taken(followers, replies, 0));
    }
  }

  /** An estimate for everyone of whom all three times are known. */
  method EstimateAll(followers: seq<nat>, t1: map<nat, real>, t2: map<nat, real>, t3: map<nat, real>)
      returns (diffs: map<nat, real>)
    requires t2.Keys == t3.Keys
    ensures forall f :: f in diffs <==> f in followers && f in t1 && f in t2
    ensures forall f | f in diffs :: f in t1 && f in t2 && diffs[f] == Estimate(t1[f], t2[f], t3[f])
  {
    diffs := map[];
    var i := 0;
    while i < |followers|
      invariant 0 <= i <= |followers|
      invariant forall f | f in diffs ::
                  f in followers && f in t2 && f in t1 && diffs[f] == Estimate(t1[f], t2[f], t3[f])
      invariant forall k | 0 <= k < i && followers[k] in t1 && followers[k] in t2 :: followers[k] in diffs
    {
      var f := followers[i];
      if f in t1 && f in t2 && f in t3 {
        diffs := diffs[f := t2[f] - (t1[f] + t3[f]) / 2.0];
      }
      i := i + 1;
    }
  }

  lemma EstimatesOf(diffs: map<nat, real>, followers: seq<nat>, sentAt: map<nat, real>, t1: map<nat, real>,
                    t2: map<nat, real>, t3: map<nat, real>, replies: seq<Reply>, n: nat)
    requires n <= |replies| && Noted(t2, t3, followers, replies, n)
    requires forall f | f in followers :: f in sentAt && f in t1 && t1[f] == sentAt[f]
    requires forall f :: f in diffs <==> f in followers && f in t1 && f in t2
    requires forall f | f in diffs :: f in t1 && f in t2 && diffs[f] == Estimate(t1[f], t2[f], t3[f])
    ensures Estimates(diffs, followers, sentAt, replies, n)
  {
    forall k | 0 <= k < n && replies[k].ip in followers
      ensures replies[k].ip in diffs
      ensures diffs[replies[k].ip] == Estimate(sentAt[replies[k].ip], replies[k].timestamp, replies[k].readAt)
    {
      assert NotedAs(t2, t3, replies[k]);
    }
  }

  /** The times noted from the first n replies: the followers' own readings, and the leader's on receipt. */
  predicate Noted(t2: map<nat, real>, t3: map<nat, real>, followers: seq<nat>, replies: seq<Reply>, n: nat)
    requires n <= |replies|
  {
    && t2.Keys == t3.Keys
    && (forall f | f in t2 :: f in followers && Heard(replies, n, f))
    && (forall k | 0 <= k < n && replies[k].ip in followers :: NotedAs(t2, t3, replies[k]))
  }

  predicate NotedAs(t2: map<nat, real>, t3: map<nat, real>, m: Reply) {
    m.ip in t2 && m.ip in t3 && t2[m.ip] == m.timestamp && t3[m.ip] == m.readAt
  }

  /** Take replies from the queue until every follower has answered or none is left. */
  method CollectReplies(followers: seq<nat>, t1: map<nat, real>, replies: seq<Reply>)
      returns (ok: bool, t2: map<nat, real>, t3: map<nat, real>)
    requires forall f :: f in t1 <==> f in followers
    ensures TakesReplies(followers, replies, Taken(followers, replies, 0), ok)
    ensures ok ==> Noted(t2, t3, followers, replies, Taken(followers, replies, 0))
  {
    ok, t2, t3 := true, map[], map[];
    ghost var n := 0;
    var notResponded := set f | f in followers;
    var queue := replies;
    while ok && notResponded != {} && queue != []
      invariant n <= |replies| && queue == replies[n..] && forall m | 0 <= m < n :: !Complete(followers, replies, m)
      invariant ok ==> Collected(t2, t3, followers, replies, n, notResponded)
      invariant Taken(followers, replies, 0) == if ok then Taken(followers, replies, n) else n
      invariant !ok ==> n > 0 && NoSecond(followers, replies, n - 1) && SecondReply(followers, replies, n - 1)
      decreases |queue|, ok
    {
      var m := queue[0];
      queue := queue[1..];
      NextReply(t2, t3, followers, replies, n, notResponded);
      if m.ip in t1 {
        t2 := t2[m.ip := m.timestamp];
        t3 := t3[m.ip := m.readAt];
        if m.ip in notResponded {
          notResponded := notResponded - {m.ip};
        } else {
          ok := false;
        }
      }
      n := n + 1;
    }
  }

  lemma HeardNext(replies: seq<Reply>, n: nat)
    requires n < |replies|
    ensures forall f :: Heard(replies, n + 1, f) <==> Heard(replies, n, f) || f == replies[n].ip
  {
    assert Heard(replies, n + 1, replies[n].ip);
    forall f | Heard(replies, n, f)
      ensures Heard(replies, n + 1, f)
    {
      var k :| 0 <= k < n && replies[k].ip == f;
      assert k < n + 1;
    }
  }

  /** Who has not answered among the first n replies. */
  predicate Missing(notResponded: set<nat>, followers: seq<nat>, replies: seq<Reply>, n: nat)
    requires n <= |replies|
  {
    && (forall f | f in notResponded :: f in followers && !Heard(replies, n, f))
    && (forall f | f in followers && !Heard(replies, n, f) :: f in notResponded)
  }

  /** n replies have been taken, none of them a second one. */
  predicate Collected(t2: map<nat, real>, t3: map<nat, real>, followers: seq<nat>, replies: seq<Reply>, n: nat,
                      notResponded: set<nat>)
    requires n <= |replies|
  {
    && Noted(t2, t3, followers, replies, n) && Missing(notResponded, followers, replies, n)
    && NoSecond(followers, replies, n) && (notResponded == {} ==> Complete(followers, replies, n))
  }

  lemma NextReply(t2: map<nat, real>, t3: map<nat, real>, followers: seq<nat>, replies: seq<Reply>, n: nat,
                  notResponded: set<nat>)
    requires n < |replies| && Collected(t2, t3, followers, replies, n, notResponded) && notResponded != {}
    ensures !Complete(followers, replies, n)
    ensures replies[n].ip in followers && replies[n].ip !in notResponded <==> SecondReply(followers, replies, n)
    ensures var m := replies[n];
            if m.ip !in followers then Collected(t2, t3, followers, replies, n + 1, notResponded)
            else if m.ip in notResponded
            then Collected(t2[m.ip := m.timestamp], t3[m.ip := m.readAt], followers, replies, n + 1,
                           notResponded - {m.ip})
            else SecondReply(followers, replies, n)
  {
    var f :| f in notResponded;
    assert !Heard(replies, n, f);
    HeardNext(replies, n);
    if replies[n].ip in notResponded {
      NoteReply(t2, t3, followers, replies, n);
    }
  }

  lemma NoteReply(t2: map<nat, real>, t3: map<nat, real>, followers: seq<nat>, replies: seq<Reply>, n: nat)
    requires n < |replies| && Noted(t2, t3, followers, replies, n)
    requires replies[n].ip in followers && !Heard(replies, n, replies[n].ip)
    ensures var m := replies[n];
            Noted(t2[m.ip := m.timestamp], t3[m.ip := m.readAt], followers, replies, n + 1)
  {
    HeardNext(replies, n);
  }

  lemma NotHeardBefore(replies: seq<Reply>, n: nat, k: nat)
    requires OneReplyEach(replies) && n <= k < |replies|
    ensures !Heard(replies, n, replies[k].ip)
  {
  }

  /** With one reply each nothing goes wrong, and the replies not looked at come from nobody that matters. */
  lemma OneEach(diffs: map<nat, real>, followers: seq<nat>, sentAt: map<nat, real>, replies: seq<Reply>, n: nat,
                ok: bool)
    requires OneReplyEach(replies) && (forall f | f in followers :: f in sentAt)
    requires TakesReplies(followers, replies, n, ok) && (ok ==> Estimates(diffs, followers, sentAt, replies, n))
    ensures ok && Estimates(diffs, followers, sentAt, replies, |replies|)
  {
    if n > 0 {
      NotHeardBefore(replies, n - 1, n - 1);
    }
    forall k | n <= k < |replies|
      ensures !Heard(replies, n, replies[k].ip)
    {
      NotHeardBefore(replies, n, k);
    }
    forall f | f in diffs
      ensures Heard(replies, |replies|, f)
    {
      var k :| 0 <= k < n && replies[k].ip == f;
      assert k < |replies|;
    }
  }

  /** A reply from a follower heard before, while another follower has not been heard by then. */
  ghost predicate EarlySecond(followers: seq<nat>, replies: seq<Reply>, j: nat, k: nat)
    requires j < k < |replies|
  {
    && replies[j].ip == replies[k].ip && replies[k].ip in followers
    && exists f | f in followers :: forall i | 0 <= i < k :: replies[i].ip != f
  }

  /** The KeyError is raised exactly when there is such a reply, wherever in the queue. */
  lemma KeyErrorExactly(followers: seq<nat>, replies: seq<Reply>, n: nat, ok: bool)
    requires TakesReplies(followers, replies, n, ok)
    ensures !ok <==> exists j, k | 0 <= j < k < |replies| :: EarlySecond(followers, replies, j, k)
  {
    if !ok {
      assert !Complete(followers, replies, n - 1);
      var j :| 0 <= j < n - 1 && replies[j].ip == replies[n - 1].ip;
      assert EarlySecond(followers, replies, j, n - 1);
    }
    forall j, k | 0 <= j < k < |replies| && EarlySecond(followers, replies, j, k)
      ensures !ok
    {
      CompleteLater(followers, replies, n, k);
      assert SecondReply(followers, replies, k) && !Complete(followers, replies, k);
    }
  }

  lemma CompleteLater(followers: seq<nat>, replies: seq<Reply>, n: nat, k: nat)
    requires n <= |replies| && k < |replies|
    ensures n <= k && Complete(followers, replies, n) ==> Complete(followers, replies, k)
  {
    if n <= k && Complete(followers, replies, n) {
      forall f | f in followers
        ensures Heard(replies, k, f)
      {
        assert Heard(replies, n, f);
        HeardLater(replies, n, k, f);
      }
    }
  }

  lemma HeardLater(replies: seq<Reply>, n: nat, k: nat, f: nat)
    requires n <= k <= |replies| && Heard(replies, n, f)
    ensures Heard(replies, k, f)
  {
    var i :| 0 <= i < n && replies[i].ip == f;
    assert i < k;
  }

  // ---- the adjustments ------------------------------------------------------------------------------------

  function Sum(s: seq<real>): real {
    if s == [] then 0.0 else Sum(s[..|s| - 1]) + s[|s| - 1]
  }

  /** The mean of the estimates and the leader's own 0. */
  function Mean(ds: seq<real>): real {
    Sum(ds) / (|ds| + 1) as real
  }

  /** What the leader works out from the estimates, in follower order: its own adjustment and everyone else's. */
  method Adjustments(ds: seq<real>) returns (own: real, others: seq<real>)
    ensures own == Mean(ds) && |others| == |ds|
    ensures forall k | 0 <= k < |ds| :: others[k] == own - ds[k]
    ensures own + Sum(others) == 0.0
  {
    var total := 0.0;
    var i := 0;
    while i < |ds|
      invariant 0 <= i <= |ds| && total == Sum(ds[..i])
    {
      assert ds[..i + 1][..i] == ds[..i];
      total := total + ds[i];
      i := i + 1;
    }
    assert ds[..|ds|] == ds;
    own := total / (|ds| + 1) as real;
    others := [];
    i := 0;
    while i < |ds|
      invariant 0 <= i <= |ds| && |others| == i
      invariant forall k | 0 <= k < i :: others[k] == own - ds[k]
    {
      others := others + [own - ds[i]];
      i := i + 1;
    }
    ZeroSum(ds, others);
  }

  lemma {:induction false} SumOfDifferences(ds: seq<real>, others: seq<real>, a: real)
    requires |others| == |ds| && forall k | 0 <= k < |ds| :: others[k] == a - ds[k]
    ensures Sum(others) == |ds| as real * a - Sum(ds)
  {
    if ds != [] {
      var n := |ds| - 1;
      SumOfDifferences(ds[..n], others[..n], a);
      assert |ds| as real * a == n as real * a + a;
    }
  }

  /** The adjustments of leader and responders cancel out before rounding. */
  lemma ZeroSum(ds: seq<real>, others: seq<real>)
    requires |others| == |ds| && forall k | 0 <= k < |ds| :: others[k] == Mean(ds) - ds[k]
    ensures Mean(ds) + Sum(others) == 0.0
  {
    SumOfDifferences(ds, others, Mean(ds));
    var n := |ds| as real;
    assert (n + 1.0) * Mean(ds) == Sum(ds);
    assert (n + 1.0) * Mean(ds) == n * Mean(ds) + Mean(ds);
  }

  // ---- clocks that drift ----------------------------------------------------------------------------------

  /** A clock that runs at a constant rate, with the offset the daemon steers, in hundredths. */
  datatype Clock = Clock(base: real, rate: real, offset: int)

  function At(c: Clock, t: real): real {
    c.base + c.rate * t + Seconds(c.offset)
  }

  const MAX_CLOCK_DRIFT := 0.1

  predicate InDrift(c: Clock) {
    1.0 - MAX_CLOCK_DRIFT <= c.rate <= 1.0 + MAX_CLOCK_DRIFT
  }

  /** A request to a follower and its reply: the real instants of sending, of the follower's reading, of receipt, and
      of the follower applying its adjustment. */
  datatype Exchange = Exchange(node: nat, sent: real, read: real, got: real, applied: real)

  /** `applied`: when the leader, having all the replies, applies its own. */
  datatype Round = Round(leader: nat, exchanges: seq<Exchange>, applied: real)

  predicate Proper(n: nat, r: Round) {
    && r.leader < n
    && (forall k | 0 <= k < |r.exchanges| ::
          r.exchanges[k].node < n && r.exchanges[k].node != r.leader
          && r.exchanges[k].sent <= r.exchanges[k].read <= r.exchanges[k].got <= r.applied <= r.exchanges[k].applied)
    && (forall j, k | 0 <= j < k < |r.exchanges| :: r.exchanges[j].node != r.exchanges[k].node)
  }

  /** What node i's clock shows when it is read at the real instant x. */
  type Face = (nat, real) -> real

  /** Clocks that are read exactly. */
  function Exact(cs: seq<Clock>): Face {
    (i: nat, x: real) => if i < |cs| then At(cs[i], x) else 0.0
  }

  function DiffOf(show: Face, leader: nat, x: Exchange): real {
    Estimate(show(leader, x.sent), show(x.node, x.read), show(leader, x.got))
  }

  function Diffs(show: Face, r: Round): (ds: seq<real>)
    ensures |ds| == |r.exchanges|
  {
    seq(|r.exchanges|, k requires 0 <= k < |r.exchanges| => DiffOf(show, r.leader, r.exchanges[k]))
  }

  function Position(xs: seq<Exchange>, i: nat): (k: nat)
    ensures k <= |xs| && (k < |xs| ==> xs[k].node == i) && (k == |xs| ==> forall j | 0 <= j < |xs| :: xs[j].node != i)
  {
    if xs == [] || xs[0].node == i then 0 else 1 + Position(xs[1..], i)
  }

  predicate Takes(r: Round, i: nat) {
    i == r.leader || Position(r.exchanges, i) < |r.exchanges|
  }

  /** A participant's adjustment in hundredths of a second. */
  function AdjustmentOf(show: Face, r: Round, i: nat): int
    requires Takes(r, i)
  {
    var ds := Diffs(show, r);
    if i == r.leader then Hundredths(Mean(ds)) else Hundredths(Mean(ds) - ds[Position(r.exchanges, i)])
  }

  /** The clocks once leader and responders have applied their rounded adjustments. */
  function AfterRound(cs: seq<Clock>, r: Round): (out: seq<Clock>)
    requires Proper(|cs|, r)
    ensures |out| == |cs|
  {
    seq(|cs|, i requires 0 <= i < |cs| =>
      if Takes(r, i) then cs[i].(offset := cs[i].offset + AdjustmentOf(Exact(cs), r, i)) else cs[i])
  }

  /** Half the leader-measured time between request and reply. */
  function HalfExchange(show: Face, leader: nat, x: Exchange): real {
    (show(leader, x.got) - show(leader, x.sent)) / 2.0
  }

  function ErrorOf(show: Face, r: Round, i: nat): real
    requires Takes(r, i)
  {
    if i == r.leader then 0.0 else HalfExchange(show, r.leader, r.exchanges[Position(r.exchanges, i)])
  }

  /** Real time passed since the participant's clock was read. */
  function LagOf(r: Round, i: nat, t: real): real
    requires Takes(r, i)
  {
    if i == r.leader then 0.0 else t - r.exchanges[Position(r.exchanges, i)].read
  }

  /** When a participant applies its adjustment. */
  function AppliedAt(r: Round, i: nat): real
    requires Takes(r, i)
  {
    if i == r.leader then r.applied else r.exchanges[Position(r.exchanges, i)].applied
  }

  /** Both have applied theirs at t. */
  predicate BothApplied(r: Round, i: nat, j: nat, t: real) {
    Takes(r, i) && Takes(r, j) && AppliedAt(r, i) <= t && AppliedAt(r, j) <= t
  }

  lemma AppliedAfterRead(n: nat, r: Round, i: nat, t: real)
    requires Proper(n, r) && Takes(r, i) && AppliedAt(r, i) <= t
    ensures LagOf(r, i, t) >= 0.0
  {
  }

  /** What clock i shows at t: its adjustment counts from when it is applied. */
  function ShownAt(cs: seq<Clock>, r: Round, i: nat, t: real): real
    requires Proper(|cs|, r) && i < |cs|
  {
    At(if Takes(r, i) && AppliedAt(r, i) <= t then AfterRound(cs, r)[i] else cs[i], t)
  }

  lemma {:induction false} PositionOf(xs: seq<Exchange>, k: nat)
    requires k < |xs| && forall a, b | 0 <= a < b < |xs| :: xs[a].node != xs[b].node
    ensures Position(xs, xs[k].node) == k
  {
    if k > 0 {
      PositionOf(xs[1..], k - 1);
    }
  }

  /** One adjustment applied to a clock. */
  function Adjusted(c: Clock, adj: real): Clock {
    c.(offset := c.offset + Hundredths(adj))
  }

  /** The queue holds one reply for each exchange of the round and none from any other follower: the request times
      and reply times are the leader's clock at the instants of the exchange, the timestamp is the follower's. */
  predicate Answered(show: Face, r: Round, followers: seq<nat>, sentAt: map<nat, real>, replies: seq<Reply>) {
    && Seqs.NoDup(followers) && (forall f | f in followers :: f in sentAt) && OneReplyEach(replies)
    && (forall k | 0 <= k < |r.exchanges| :: AnsweredBy(show, r.leader, r.exchanges[k], followers, sentAt, replies))
    && (forall j | 0 <= j < |replies| && replies[j].ip in followers ::
          Position(r.exchanges, replies[j].ip) < |r.exchanges|)
  }

  predicate AnsweredBy(show: Face, leader: nat, x: Exchange, followers: seq<nat>, sentAt: map<nat, real>,
                       replies: seq<Reply>)
  {
    && x.node in followers && x.node in sentAt && sentAt[x.node] == show(leader, x.sent)
    && Reply(x.node, show(x.node, x.read), show(leader, x.got)) in replies
  }

  /** fix_follower_clocks: gather the estimates, adjust the leader's own clock, then send each responder its
      adjustment, which it applies. */
  method SyncRound(clocks: array<Clock>, r: Round, followers: seq<nat>, sentAt: map<nat, real>, replies: seq<Reply>)
    requires Proper(clocks.Length, r) && Answered(Exact(clocks[..]), r, followers, sentAt, replies)
    modifies clocks
    ensures clocks[..] == AfterRound(old(clocks[..]), r)
  {
    var ds := Gather(Exact(clocks[..]), r, followers, sentAt, replies);
    var own, others := Adjustments(ds);
    SendAdjustments(clocks, r, own, others, ds);
    AllAdjusted(old(clocks[..]), r, ds, clocks[..]);
  }

  lemma AllAdjusted(cs: seq<Clock>, r: Round, ds: seq<real>, out: seq<Clock>)
    requires Proper(|cs|, r) && ds == Diffs(Exact(cs), r) && |out| == |cs|
    requires forall i | 0 <= i < |cs| :: out[i] == Midway(cs, r, ds, i, |ds|)
    ensures out == AfterRound(cs, r)
  {
    forall i | 0 <= i < |cs|
      ensures out[i] == AfterRound(cs, r)[i]
    {
      AdjustedAt(cs, r, i);
    }
  }

  lemma AdjustedAt(cs: seq<Clock>, r: Round, i: nat)
    requires Proper(|cs|, r) && i < |cs|
    ensures Midway(cs, r, Diffs(Exact(cs), r), i, |r.exchanges|) == AfterRound(cs, r)[i]
  {
  }

  /** The estimates that get_follower_diffs returns, in the order of the round's exchanges. */
  method Gather(ghost show: Face, r: Round, followers: seq<nat>, sentAt: map<nat, real>, replies: seq<Reply>)
      returns (ds: seq<real>)
    requires Answered(show, r, followers, sentAt, replies)
    ensures ds == Diffs(show, r)
  {
    var ok, diffs := GetFollowerDiffs(followers, sentAt, replies);
    OneEach(diffs, followers, sentAt, replies, Taken(followers, replies, 0), ok);
    AllEstimated(show, r, followers, sentAt, replies, diffs);
    ds := InOrder(show, r, diffs);
  }

  method InOrder(ghost show: Face, r: Round, diffs: map<nat, real>) returns (ds: seq<real>)
    requires forall k | 0 <= k < |r.exchanges| :: Estimated(show, r.leader, r.exchanges[k], diffs)
    ensures ds == Diffs(show, r)
  {
    ds := [];
    while |ds| < |r.exchanges|
      invariant |ds| <= |r.exchanges| && ds == Diffs(show, r)[..|ds|]
    {
      assert Estimated(show, r.leader, r.exchanges[|ds|], diffs);
      ds := ds + [diffs[r.exchanges[|ds|].node]];
    }
  }

  predicate Estimated(show: Face, leader: nat, x: Exchange, diffs: map<nat, real>) {
    x.node in diffs && diffs[x.node] == DiffOf(show, leader, x)
  }

  lemma AllEstimated(show: Face, r: Round, followers: seq<nat>, sentAt: map<nat, real>, replies: seq<Reply>,
                     diffs: map<nat, real>)
    requires Answered(show, r, followers, sentAt, replies)
    requires Estimates(diffs, followers, sentAt, replies, |replies|)
    ensures forall k | 0 <= k < |r.exchanges| :: Estimated(show, r.leader, r.exchanges[k], diffs)
  {
    forall k | 0 <= k < |r.exchanges|
      ensures Estimated(show, r.leader, r.exchanges[k], diffs)
    {
      EstimateOf(show, r.leader, r.exchanges[k], followers, sentAt, replies, diffs);
    }
  }

  lemma EstimateOf(show: Face, leader: nat, x: Exchange, followers: seq<nat>, sentAt: map<nat, real>,
                   replies: seq<Reply>, diffs: map<nat, real>)
    requires forall f | f in followers :: f in sentAt
    requires AnsweredBy(show, leader, x, followers, sentAt, replies)
    requires Estimates(diffs, followers, sentAt, replies, |replies|)
    ensures Estimated(show, leader, x, diffs)
  {
    var k :| 0 <= k < |replies| && replies[k] == Reply(x.node, show(x.node, x.read), show(leader, x.got));
  }

  method SendAdjustments(clocks: array<Clock>, r: Round, own: real, others: seq<real>, ghost ds: seq<real>)
    requires Proper(clocks.Length, r) && |others| == |r.exchanges| == |ds| && own == Mean(ds)
    requires forall k | 0 <= k < |others| :: others[k] == own - ds[k]
    modifies clocks
    ensures forall i | 0 <= i < clocks.Length :: clocks[i] == Midway(old(clocks[..]), r, ds, i, |ds|)
  {
    clocks[r.leader] := Adjusted(clocks[r.leader], own);
    var k := 0;
    while k < |r.exchanges|
      invariant 0 <= k <= |r.exchanges|
      invariant forall i | 0 <= i < clocks.Length :: clocks[i] == Midway(old(clocks[..]), r, ds, i, k)
    {
      var i := r.exchanges[k].node;
      PositionOf(r.exchanges, k);
      clocks[i] := Adjusted(clocks[i], others[k]);
      k := k + 1;
    }
  }

  /** Clock i once the leader and the first k responders have been adjusted. */
  function Midway(cs: seq<Clock>, r: Round, ds: seq<real>, i: nat, k: nat): Clock
    requires i < |cs|
  {
    var p := Position(r.exchanges, i);
    if i == r.leader then Adjusted(cs[i], Mean(ds))
    else if p < |ds| && p < k then Adjusted(cs[i], Mean(ds) - ds[p])
    else cs[i]
  }

  predicate Within(x: real, y: real, bound: real) {
    -bound <= x - y <= bound
  }

  /** What reading error, drift since the reading, rounding, and clocks read only nearly together allow. */
  function Allowance(e: real, lag: real, spread: real, near: real): real {
    e + spread * lag + 0.005 + 2.0 * near
  }

  /** How far from the common target, the leader's old clock plus the mean, a clock may be at t. */
  predicate OnTarget(c: Clock, L: Clock, mean: real, t: real, bound: real) {
    Within(At(c, t), At(L, t) + mean, bound)
  }

  /** The estimate is off by at most half the exchange, whatever the leader's clock does meanwhile as long as it
      does not run backwards. */
  lemma EstimateAccuracy(l1: real, l2: real, l3: real, t2: real)
    requires l1 <= l2 <= l3
    ensures -(l3 - l1) / 2.0 <= Estimate(l1, t2, l3) - (t2 - l2) <= (l3 - l1) / 2.0
  {
  }

  lemma RateTimes(a: real, b: real, d: real, bound: real)
    requires -bound <= a - b <= bound && d >= 0.0
    ensures -bound * d <= a * d - b * d <= bound * d
  {
    assert (a - b + bound) * d >= 0.0;
    assert (bound - a + b) * d >= 0.0;
    assert (a - b + bound) * d == a * d - b * d + bound * d;
    assert (bound - a + b) * d == bound * d - a * d + b * d;
  }

  /** Node i's clock is read to within `near` of c. */
  ghost predicate Nearly(show: Face, i: nat, c: Clock, near: real) {
    forall x: real :: Within(show(i, x), At(c, x), near)
  }

  /** Node i's clock does not run backwards. */
  ghost predicate Forward(show: Face, i: nat) {
    forall x: real, y: real | x <= y :: show(i, x) <= show(i, y)
  }

  /** How far a participant ends from the common target, the leader's old clock plus the mean, when the clocks L of
      the leader and c of the participant are read to within `near`. */
  lemma Deviation(show: Face, n: nat, r: Round, i: nat, L: Clock, c: Clock, after: Clock, t: real, spread: real,
                  near: real)
    requires Proper(n, r) && Takes(r, i) && LagOf(r, i, t) >= 0.0 && near >= 0.0
    requires Nearly(show, r.leader, L, near) && Nearly(show, i, c, near) && Forward(show, r.leader)
    requires (i == r.leader ==> c == L) && -spread <= c.rate - L.rate <= spread
    requires after == c.(offset := c.offset + AdjustmentOf(show, r, i))
    ensures OnTarget(after, L, Mean(Diffs(show, r)), t,
                     Allowance(ErrorOf(show, r, i), LagOf(r, i, t), spread, near))
  {
    if i == r.leader {
      LeaderDeviation(L, after, Mean(Diffs(show, r)), t, spread, near);
    } else {
      ResponderDeviation(show, n, r, i, L, c, after, t, spread, near, r.exchanges[Position(r.exchanges, i)]);
    }
  }

  lemma LeaderDeviation(L: Clock, after: Clock, mean: real, t: real, spread: real, near: real)
    requires after == L.(offset := L.offset + Hundredths(mean)) && near >= 0.0
    ensures OnTarget(after, L, mean, t, Allowance(0.0, 0.0, spread, near))
  {
    RoundingError(mean);
    Moved(L, Hundredths(mean), t);
  }

  lemma ResponderDeviation(show: Face, n: nat, r: Round, i: nat, L: Clock, c: Clock, after: Clock, t: real,
                           spread: real, near: real, x: Exchange)
    requires Proper(n, r) && Takes(r, i) && LagOf(r, i, t) >= 0.0 && i != r.leader
    requires Nearly(show, r.leader, L, near) && Nearly(show, i, c, near) && Forward(show, r.leader)
    requires -spread <= c.rate - L.rate <= spread && x == r.exchanges[Position(r.exchanges, i)]
    requires after == c.(offset := c.offset + AdjustmentOf(show, r, i))
    ensures OnTarget(after, L, Mean(Diffs(show, r)), t,
                     Allowance(ErrorOf(show, r, i), LagOf(r, i, t), spread, near))
  {
    assert Diffs(show, r)[Position(r.exchanges, i)] == DiffOf(show, r.leader, x);
    Measured(L, c, after, x.read, show(r.leader, x.sent), show(r.leader, x.read), show(r.leader, x.got),
             show(i, x.read), Mean(Diffs(show, r)), t, spread, ErrorOf(show, r, i), LagOf(r, i, t), near);
  }

  /** One exchange: l1, l2, l3 read from the leader's clock, f2 from the responder's. */
  lemma Measured(L: Clock, F: Clock, after: Clock, read: real, l1: real, l2: real, l3: real, f2: real, mean: real,
                 t: real, spread: real, e: real, lag: real, near: real)
    requires l1 <= l2 <= l3 && e == (l3 - l1) / 2.0 && lag == t - read >= 0.0
    requires Within(l2, At(L, read), near) && Within(f2, At(F, read), near)
    requires -spread <= F.rate - L.rate <= spread
    requires after == F.(offset := F.offset + Hundredths(mean - Estimate(l1, f2, l3)))
    ensures OnTarget(after, L, mean, t, Allowance(e, lag, spread, near))
  {
    var d := Estimate(l1, f2, l3);
    RoundingError(mean - d);
    Moved(F, Hundredths(mean - d), t);
    EstimateAccuracy(l1, l2, l3, f2);
    Drifted(L, F, read, t, spread);
    Combine(At(F, t) - At(L, t), At(F, read) - At(L, read), d, mean, Seconds(Hundredths(mean - d)), e + 2.0 * near,
            spread * lag);
  }

  lemma Combine(gap: real, gapThen: real, d: real, mean: real, s: real, e: real, drift: real)
    requires -e <= d - gapThen <= e && -drift <= gap - gapThen <= drift && -0.005 <= s - (mean - d) <= 0.005
    ensures -(e + drift + 0.005) <= gap + s - mean <= e + drift + 0.005
  {
  }

  lemma Moved(c: Clock, h: int, t: real)
    ensures At(c.(offset := c.offset + h), t) == At(c, t) + Seconds(h)
  {
  }

  lemma Monotone(c: Clock, s: real, t: real)
    requires c.rate >= 0.0 && s <= t
    ensures At(c, s) <= At(c, t)
  {
    assert c.rate * (t - s) >= 0.0;
    assert c.rate * (t - s) == c.rate * t - c.rate * s;
  }

  lemma Drifted(L: Clock, F: Clock, s: real, t: real, spread: real)
    requires s <= t && -spread <= F.rate - L.rate <= spread
    ensures -spread * (t - s) <= (At(F, t) - At(L, t)) - (At(F, s) - At(L, s)) <= spread * (t - s)
  {
    RateTimes(F.rate, L.rate, t - s, spread);
    assert F.rate * (t - s) == F.rate * t - F.rate * s;
    assert L.rate * (t - s) == L.rate * t - L.rate * s;
  }

  lemma ExactNearly(cs: seq<Clock>, i: nat)
    requires i < |cs|
    ensures Nearly(Exact(cs), i, cs[i], 0.0)
    ensures cs[i].rate >= 0.0 ==> Forward(Exact(cs), i)
  {
    if cs[i].rate >= 0.0 {
      forall x: real, y: real | x <= y
        ensures Exact(cs)(i, x) <= Exact(cs)(i, y)
      {
        Monotone(cs[i], x, y);
      }
    }
  }

  /** With clocks read exactly. */
  lemma ExactDeviation(cs: seq<Clock>, r: Round, i: nat, t: real, spread: real)
    requires Proper(|cs|, r) && i < |cs| && Takes(r, i) && LagOf(r, i, t) >= 0.0
    requires cs[r.leader].rate >= 0.0 && -spread <= cs[i].rate - cs[r.leader].rate <= spread
    ensures OnTarget(AfterRound(cs, r)[i], cs[r.leader], Mean(Diffs(Exact(cs), r)), t,
                     Allowance(ErrorOf(Exact(cs), r, i), LagOf(r, i, t), spread, 0.0))
  {
    ExactNearly(cs, i);
    ExactNearly(cs, r.leader);
    Deviation(Exact(cs), |cs|, r, i, cs[r.leader], cs[i], AfterRound(cs, r)[i], t, spread, 0.0);
  }

  /** With rates between 0.90 and 1.10, any two participants of a round agree, once both have been adjusted, up to their
      reading errors, one hundredth of a second, and what they can have drifted apart since they were read. */
  lemma Synchronised(cs: seq<Clock>, r: Round, i: nat, j: nat, t: real)
    requires Proper(|cs|, r) && i < |cs| && j < |cs| && InDrift(cs[i]) && InDrift(cs[j]) && InDrift(cs[r.leader])
    requires BothApplied(r, i, j, t)
    ensures Within(ShownAt(cs, r, i, t), ShownAt(cs, r, j, t),
                   ErrorOf(Exact(cs), r, i) + ErrorOf(Exact(cs), r, j) + 0.01 + 0.2 * (LagOf(r, i, t) + LagOf(r, j, t)))
  {
    AppliedAfterRead(|cs|, r, i, t);
    AppliedAfterRead(|cs|, r, j, t);
    ExactDeviation(cs, r, i, t, 0.2);
    ExactDeviation(cs, r, j, t, 0.2);
    Apart(AfterRound(cs, r)[i], AfterRound(cs, r)[j], cs[r.leader], Mean(Diffs(Exact(cs), r)), t,
          ErrorOf(Exact(cs), r, i), ErrorOf(Exact(cs), r, j), LagOf(r, i, t), LagOf(r, j, t), 0.2, 0.0);
  }

  lemma Apart(c: Clock, d: Clock, L: Clock, mean: real, t: real, e1: real, e2: real, l1: real, l2: real,
              spread: real, near: real)
    requires OnTarget(c, L, mean, t, Allowance(e1, l1, spread, near))
    requires OnTarget(d, L, mean, t, Allowance(e2, l2, spread, near))
    ensures Within(At(c, t), At(d, t), e1 + e2 + 0.01 + spread * (l1 + l2) + 4.0 * near)
    ensures near == 0.0 ==> Within(At(c, t), At(d, t), e1 + e2 + 0.01 + spread * (l1 + l2))
    ensures spread == near == 0.0 ==> Within(At(c, t), At(d, t), e1 + e2 + 0.01)
  {
    assert spread * (l1 + l2) == spread * l1 + spread * l2;
  }

  /** What two participants' reading errors, their lags and clocks read only nearly allow between them. */
  function SkewBound(e1: real, e2: real, l1: real, l2: real, near: real): real {
    e1 + e2 + 0.01 + 0.2 * (l1 + l2) + 6.0 * near
  }

  /** The bound of Synchronised grows by six times `near` when clocks are read only to within that; x and y are what
      the two show once they have been adjusted. */
  lemma NearlySynchronised(show: Face, n: nat, r: Round, i: nat, j: nat, L: Clock, c: Clock, d: Clock, t: real,
                           near: real, x: real, y: real)
    requires Proper(n, r) && BothApplied(r, i, j, t)
    requires near >= 0.0 && Nearly(show, r.leader, L, near) && Nearly(show, i, c, near) && Nearly(show, j, d, near)
    requires Forward(show, r.leader) && InDrift(L) && InDrift(c) && InDrift(d)
    requires (i == r.leader ==> c == L) && (j == r.leader ==> d == L)
    requires x == show(i, t) + Seconds(AdjustmentOf(show, r, i)) && y == show(j, t) + Seconds(AdjustmentOf(show, r, j))
    ensures Within(x, y, SkewBound(ErrorOf(show, r, i), ErrorOf(show, r, j), LagOf(r, i, t), LagOf(r, j, t), near))
  {
    AppliedAfterRead(n, r, i, t);
    AppliedAfterRead(n, r, j, t);
    var c' := c.(offset := c.offset + AdjustmentOf(show, r, i));
    var d' := d.(offset := d.offset + AdjustmentOf(show, r, j));
    Deviation(show, n, r, i, L, c, c', t, 0.2, near);
    Deviation(show, n, r, j, L, d, d', t, 0.2, near);
    NearlyMoved(show, i, c, c', AdjustmentOf(show, r, i), t, near, x);
    NearlyMoved(show, j, d, d', AdjustmentOf(show, r, j), t, near, y);
    ApartNearly(c', d', L, Mean(Diffs(show, r)), t, ErrorOf(show, r, i), ErrorOf(show, r, j), LagOf(r, i, t),
                LagOf(r, j, t), near, x, y);
  }

  lemma NearlyMoved(show: Face, i: nat, c: Clock, after: Clock, a: int, t: real, near: real, x: real)
    requires Nearly(show, i, c, near) && after == c.(offset := c.offset + a) && x == show(i, t) + Seconds(a)
    ensures Within(x, At(after, t), near)
  {
    Moved(c, a, t);
    assert Within(show(i, t), At(c, t), near);
  }

  lemma ApartNearly(c: Clock, d: Clock, L: Clock, mean: real, t: real, e1: real, e2: real, l1: real, l2: real,
                    near: real, x: real, y: real)
    requires OnTarget(c, L, mean, t, Allowance(e1, l1, 0.2, near))
    requires OnTarget(d, L, mean, t, Allowance(e2, l2, 0.2, near))
    requires Within(x, At(c, t), near) && Within(y, At(d, t), near)
    ensures Within(x, y, SkewBound(e1, e2, l1, l2, near))
  {
    Apart(c, d, L, mean, t, e1, e2, l1, l2, 0.2, near);
  }

  /** With equal rates the bound does not grow: reading errors and one hundredth of a second. */
  lemma SynchronisedEqualRates(cs: seq<Clock>, r: Round, i: nat, j: nat, t: real)
    requires Proper(|cs|, r) && i < |cs| && j < |cs|
    requires cs[i].rate == cs[j].rate == cs[r.leader].rate >= 0.0
    requires BothApplied(r, i, j, t)
    ensures Within(ShownAt(cs, r, i, t), ShownAt(cs, r, j, t),
                   ErrorOf(Exact(cs), r, i) + ErrorOf(Exact(cs), r, j) + 0.01)
  {
    AppliedAfterRead(|cs|, r, i, t);
    AppliedAfterRead(|cs|, r, j, t);
    ExactDeviation(cs, r, i, t, 0.0);
    ExactDeviation(cs, r, j, t, 0.0);
    Apart(AfterRound(cs, r)[i], AfterRound(cs, r)[j], cs[r.leader], Mean(Diffs(Exact(cs), r)), t,
          ErrorOf(Exact(cs), r, i), ErrorOf(Exact(cs), r, j), LagOf(r, i, t), LagOf(r, j, t), 0.0, 0.0);
  }

  // ---- whole runs -----------------------------------------------------------------------------------------

  function AfterRounds(cs: seq<Clock>, rs: seq<Round>): (out: seq<Clock>)
    requires forall k | 0 <= k < |rs| :: Proper(|cs|, rs[k])
    ensures |out| == |cs|
  {
    if rs == [] then cs else AfterRound(AfterRounds(cs, rs[..|rs| - 1]), rs[|rs| - 1])
  }

  lemma {:induction false} RatesKept(cs: seq<Clock>, rs: seq<Round>, i: nat)
    requires (forall k | 0 <= k < |rs| :: Proper(|cs|, rs[k])) && i < |cs|
    ensures AfterRounds(cs, rs)[i].rate == cs[i].rate && AfterRounds(cs, rs)[i].base == cs[i].base
  {
    if rs != [] {
      RatesKept(cs, rs[..|rs| - 1], i);
    }
  }

  /** After any number of rounds, one after the other, with any leaders and any participants, the skew between two
      participants of the last round depends on that round alone. */
  lemma SkewOverRuns(cs: seq<Clock>, rs: seq<Round>, i: nat, j: nat, t: real)
    requires rs != [] && forall k | 0 <= k < |rs| :: Proper(|cs|, rs[k])
    requires var r := rs[|rs| - 1];
             i < |cs| && j < |cs| && Proper(|cs|, r) && InDrift(cs[i]) && InDrift(cs[j]) && InDrift(cs[r.leader])
    requires BothApplied(rs[|rs| - 1], i, j, t)
    ensures var before, r := AfterRounds(cs, rs[..|rs| - 1]), rs[|rs| - 1];
            Within(ShownAt(before, r, i, t), ShownAt(before, r, j, t),
                   ErrorOf(Exact(before), r, i) + ErrorOf(Exact(before), r, j) + 0.01
                   + 0.2 * (LagOf(r, i, t) + LagOf(r, j, t)))
  {
    var before := AfterRounds(cs, rs[..|rs| - 1]);
    RatesKept(cs, rs[..|rs| - 1], i);
    RatesKept(cs, rs[..|rs| - 1], j);
    RatesKept(cs, rs[..|rs| - 1], rs[|rs| - 1].leader);
    Synchronised(before, rs[|rs| - 1], i, j, t);
  }
}
