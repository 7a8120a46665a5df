/** Averaging rounds between hosts whose clocks are fake clocks: every reading is a faked one, and every adjustment
    rewrites a FAKETIME variable. */
module TempoHosts {
  import opened TimeOps
  import opened FakeClock
  import opened Steering
  import FakeClockLaws
  import Sync = TempoSync

  // ---- rounds on hosts ------------------------------------------------------------------------------------

  /** What time.time() returns on the host at the real instant x, of which the kernel tells whole nanoseconds. */
  function Shown(s: Host, x: real): real {
    InSeconds(Shows(s, Realtime, ToTs(x)))
  }

  function Faces(hs: seq<Host>): Sync.Face {
    (i: nat, x: real) => if i < |hs| then Shown(hs[i], x) else 0.0
  }

  /** The readings a participant makes for the round. */
  function OwnReads(r: Sync.Round, i: nat): seq<Act>
    requires Sync.Takes(r, i)
  {
    var xs := r.exchanges;
    if i == r.leader then
      seq(|xs|, k requires 0 <= k < |xs| => Read(Realtime, ToTs(xs[k].sent)))
      + seq(|xs|, k requires 0 <= k < |xs| => Read(Realtime, ToTs(xs[k].got)))
    else [Read(Realtime, ToTs(xs[Sync.Position(xs, i)].read))]
  }

  /** A follower cannot read an adjustment of zero, and then rewrites nothing. */
  function Fixes(leads: bool, a: int): seq<Act> {
    if a == 0 && !leads then [] else [Fix(a)]
  }

  function AfterRound(hs: seq<Host>, r: Sync.Round): (out: seq<Host>)
    requires Sync.Proper(|hs|, r)
    ensures |out| == |hs|
  {
    seq(|hs|, i requires 0 <= i < |hs| =>
      if Sync.Takes(r, i) then RunActs(hs[i], OwnReads(r, i) + Fixes(i == r.leader, Sync.AdjustmentOf(Faces(hs), r, i)))
      else hs[i])
  }

  /** A round, or any program on host i reading any clock. */
  datatype Step = Averaging(r: Sync.Round) | Looking(i: nat, id: ClockId, t: Ts)

  predicate Possible(n: nat, step: Step) {
    match step
    case Averaging(r) => Sync.Proper(n, r)
    case Looking(i, _, _) => i < n
  }

  function AfterStep(hs: seq<Host>, step: Step): (out: seq<Host>)
    requires Possible(|hs|, step)
    ensures |out| == |hs|
  {
    match step
    case Averaging(r) => AfterRound(hs, r)
    case Looking(i, id, t) => hs[i := Do(hs[i], Read(id, t))]
  }

  function After(hs: seq<Host>, steps: seq<Step>): (out: seq<Host>)
    requires forall k | 0 <= k < |steps| :: Possible(|hs|, steps[k])
    ensures |out| == |hs|
  {
    if steps == [] then hs else AfterStep(After(hs, steps[..|steps| - 1]), steps[|steps| - 1])
  }

  // ---- every host stays in tune -----------------------------------------------------------------------------

  /** Host i keeps its start time and its drift, and shows some offset. */
  ghost predicate Network(hs: seq<Host>, starts: seq<Clocks>, drifts: seq<string>) {
    && |hs| == |starts| == |drifts|
    && forall i | 0 <= i < |hs| :: Tuned(hs[i], starts[i], drifts[i])
  }

  ghost predicate Tuned(s: Host, start: Clocks, drift: string) {
    DriftText(drift) && Normal(start.realtime, NS) && exists h :: InTune(s, start, h, drift)
  }

  /** A host that has just started and parsed its variable for the first time. */
  lemma StartsInTune(start: Clocks, drift: string)
    requires DriftText(drift) && Normal(start.realtime, NS)
    ensures Tuned(Host(Spec(0, drift), Parsed(Unparsed(start), Spec(0, drift), false)), start, drift)
  {
    ParsingSteers(Unparsed(start), 0, drift);
    assert InTune(Host(Spec(0, drift), Parsed(Unparsed(start), Spec(0, drift), false)), start, 0, drift);
  }

  lemma {:induction false} SumOfReads(acts: seq<Act>)
    requires forall k | 0 <= k < |acts| :: acts[k].Read?
    ensures SumOf(acts) == 0
  {
    if acts != [] {
      SumOfReads(acts[..|acts| - 1]);
    }
  }

  lemma SumOfMore(acts: seq<Act>, a: Act)
    ensures SumOf(acts + [a]) == SumOf(acts) + Shift(a)
  {
    assert (acts + [a])[..|acts|] == acts;
  }

  lemma SumOfFixes(looks: seq<Act>, leads: bool, a: int)
    requires forall k | 0 <= k < |looks| :: looks[k].Read?
    ensures SumOf(looks + Fixes(leads, a)) == a
  {
    SumOfReads(looks);
    if a == 0 && !leads {
      assert looks + [] == looks;
    } else {
      SumOfMore(looks, Fix(a));
    }
  }

  /** A round moves the offset of a participant by its adjustment and of nobody else. */
  lemma RoundMoves(hs: seq<Host>, r: Sync.Round, i: nat, start: Clocks, h: int, drift: string, k: int)
    requires Sync.Proper(|hs|, r) && i < |hs| && DriftText(drift) && InTune(hs[i], start, h, drift)
    requires k == h + if Sync.Takes(r, i) then Sync.AdjustmentOf(Faces(hs), r, i) else 0
    ensures InTune(AfterRound(hs, r)[i], start, k, drift)
  {
    if Sync.Takes(r, i) {
      var a := Sync.AdjustmentOf(Faces(hs), r, i);
      SumOfFixes(OwnReads(r, i), i == r.leader, a);
      RunKeepsTune(hs[i], start, h, drift, OwnReads(r, i) + Fixes(i == r.leader, a), k);
    }
  }

  lemma StepKeepsNetwork(hs: seq<Host>, starts: seq<Clocks>, drifts: seq<string>, step: Step)
    requires Network(hs, starts, drifts) && Possible(|hs|, step)
    ensures Network(AfterStep(hs, step), starts, drifts)
  {
    forall i | 0 <= i < |hs|
      ensures Tuned(AfterStep(hs, step)[i], starts[i], drifts[i])
    {
      assert Tuned(hs[i], starts[i], drifts[i]);
      var h :| InTune(hs[i], starts[i], h, drifts[i]);
      match step
      case Averaging(r) =>
        RoundMoves(hs, r, i, starts[i], h, drifts[i],
                   h + if Sync.Takes(r, i) then Sync.AdjustmentOf(Faces(hs), r, i) else 0);
      case Looking(_, id, t) =>
        ReadKeepsTune(hs[i], starts[i], h, drifts[i], id, t);
    }
  }

  lemma {:induction false} NetworkKept(hs: seq<Host>, starts: seq<Clocks>, drifts: seq<string>, steps: seq<Step>)
    requires Network(hs, starts, drifts) && forall k | 0 <= k < |steps| :: Possible(|hs|, steps[k])
    ensures Network(After(hs, steps), starts, drifts)
  {
    if steps != [] {
      var before := steps[..|steps| - 1];
      NetworkKept(hs, starts, drifts, before);
      StepKeepsNetwork(After(hs, before), starts, drifts, steps[|steps| - 1]);
    }
  }

  /** Readings by anybody change no host's offset. */
  lemma {:induction false} LookingKeeps(hs: seq<Host>, steps: seq<Step>, i: nat, start: Clocks, h: int, drift: string)
    requires forall k | 0 <= k < |steps| :: Possible(|hs|, steps[k]) && steps[k].Looking?
    requires i < |hs| && DriftText(drift) && InTune(hs[i], start, h, drift)
    ensures InTune(After(hs, steps)[i], start, h, drift)
  {
    if steps != [] {
      var before, step := steps[..|steps| - 1], steps[|steps| - 1];
      LookingKeeps(hs, before, i, start, h, drift);
      ReadKeepsTune(After(hs, before)[i], start, h, drift, step.id, step.t);
    }
  }

  // ---- what a host in tune shows ------------------------------------------------------------------------------

  function LineAt(S: int, h: int, c: real, t: int): int {
    S + h * NS_PER_HUNDREDTH + Scaled(c, t - S)
  }

  lemma ShowsLine(s: Host, start: Clocks, h: int, drift: string, t: Ts)
    requires DriftText(drift) && InTune(s, start, h, drift) && Normal(start.realtime, NS) && Normal(t, NS)
    ensures Shows(s, Realtime, t) == LineAt(Ns(start.realtime), h, DriftRate(drift), Ns(t))
  {
    var f := Parsed(s.clock, s.env, false);
    Reparsed(s, start, h, drift);
    ReadsInTune(f, s, h, 0, h, drift, Realtime, t);
    AlignedNs(f, h, DriftRate(drift), Ns(t));
  }

  lemma Reparsed(s: Host, start: Clocks, h: int, drift: string)
    requires DriftText(drift) && InTune(s, start, h, drift)
    ensures Steered(Parsed(s.clock, s.env, false), h, drift) && Parsed(s.clock, s.env, false).start == start
  {
    var g :| Steered(s.clock, g, drift);
    ShiftedEverywhere(s.clock, g, h - g, h, drift, Realtime, 0);
  }

  /** The whole nanoseconds of a real instant. */
  lemma WholeNs(x: real)
    ensures Normal(ToTs(x), NS) && Ns(ToTs(x)) as real <= x * NS as real < Ns(ToTs(x)) as real + 1.0
  {
    ToTsNormal(x);
    FractionNs(x, x.Floor, x - x.Floor as real);
  }

  lemma FractionNs(x: real, w: int, p: real)
    requires x == w as real + p && 0.0 <= p < 1.0
    ensures var n := w * NS + Trunc(p * NS as real);
            n as real <= x * NS as real < n as real + 1.0
  {
    assert x * NS as real == (w * NS) as real + p * NS as real;
  }

  /** By what a reading can differ from the clock of the analysis: truncated instant, rate up to 1.10, truncated
      result. */
  const READING_ERROR := 0.0000000021

  lemma LineNear(S: int, h: int, c: real, x: real)
    requires 0.0 <= c <= 1.1
    ensures Sync.Within(InSeconds(LineAt(S, h, c, Ns(ToTs(x)))), Sync.At(ClockOf(S, c, h), x), READING_ERROR)
  {
    var n := Ns(ToTs(x));
    WholeNs(x);
    ClockClose(c, S, n, h, LineAt(S, h, c, n));
    InstantError(ClockOf(S, c, h), n, x);
    NsToSeconds(LineAt(S, h, c, n), Sync.At(ClockOf(S, c, h), InSeconds(n)), Sync.At(ClockOf(S, c, h), x));
  }

  lemma InstantError(c: Sync.Clock, n: int, x: real)
    requires 0.0 <= c.rate <= 1.1 && n as real <= x * NS as real < n as real + 1.0
    ensures 0.0 <= Sync.At(c, x) - Sync.At(c, InSeconds(n)) <= 0.0000000011
  {
    var d := x - InSeconds(n);
    assert 0.0 <= d <= 0.000000001;
    assert c.rate * d == c.rate * x - c.rate * InSeconds(n);
    assert 0.0 <= c.rate * d <= 1.1 * d;
  }

  lemma NsToSeconds(n: int, y: real, z: real)
    requires Close(n, y * NS as real) && 0.0 <= z - y <= 0.0000000011
    ensures Sync.Within(InSeconds(n), z, READING_ERROR)
  {
    assert InSeconds(n) * NS as real == n as real;
  }

  /** The clock of the analysis for a host in tune. */
  function Analysed(start: Clocks, h: int, drift: string): Sync.Clock {
    ClockOf(Ns(start.realtime), DriftRate(drift), h)
  }

  /** The host shows nearly that. */
  lemma ShownNear(s: Host, start: Clocks, h: int, drift: string, x: real)
    requires DriftText(drift) && InTune(s, start, h, drift) && Normal(start.realtime, NS)
    requires 0.0 <= DriftRate(drift) <= 1.1
    ensures Sync.Within(Shown(s, x), Sync.At(Analysed(start, h, drift), x), READING_ERROR)
  {
    WholeNs(x);
    ShowsLine(s, start, h, drift, ToTs(x));
    LineNear(Ns(start.realtime), h, DriftRate(drift), x);
  }

  /** A clock that nobody adjusts meanwhile does not run backwards. */
  lemma ShownMonotone(s: Host, start: Clocks, h: int, drift: string, x: real, y: real)
    requires DriftText(drift) && InTune(s, start, h, drift) && Normal(start.realtime, NS)
    requires 0.0 <= DriftRate(drift) && x <= y
    ensures Shown(s, x) <= Shown(s, y)
  {
    WholeNs(x);
    WholeNs(y);
    ShowsLine(s, start, h, drift, ToTs(x));
    ShowsLine(s, start, h, drift, ToTs(y));
    LineMonotone(Ns(start.realtime), h, DriftRate(drift), x, y, Ns(ToTs(x)), Ns(ToTs(y)));
  }

  lemma LineMonotone(S: int, h: int, c: real, x: real, y: real, m: int, n: int)
    requires c >= 0.0 && x <= y
    requires m as real <= x * NS as real && y * NS as real < n as real + 1.0
    ensures InSeconds(LineAt(S, h, c, m)) <= InSeconds(LineAt(S, h, c, n))
  {
    FakeClockLaws.ScaledMonotone(c, m - S, n - S);
  }

  // ---- the skew after a round ---------------------------------------------------------------------------------

  predicate InDrift(drift: string) {
    DriftText(drift) && 1.0 - Sync.MAX_CLOCK_DRIFT <= DriftRate(drift) <= 1.0 + Sync.MAX_CLOCK_DRIFT
  }

  lemma OffsetOfHost(hs: seq<Host>, starts: seq<Clocks>, drifts: seq<string>, i: nat) returns (h: int)
    requires Network(hs, starts, drifts) && i < |hs|
    ensures DriftText(drifts[i]) && Normal(starts[i].realtime, NS) && InTune(hs[i], starts[i], h, drifts[i])
  {
    assert Tuned(hs[i], starts[i], drifts[i]);
    h :| InTune(hs[i], starts[i], h, drifts[i]);
  }

  /** The clock of the analysis for a host of a network, whatever its offset is. */
  lemma ClockFor(hs: seq<Host>, starts: seq<Clocks>, drifts: seq<string>, i: nat) returns (c: Sync.Clock)
    requires Network(hs, starts, drifts) && i < |hs| && InDrift(drifts[i])
    ensures Sync.Nearly(Faces(hs), i, c, READING_ERROR) && Sync.Forward(Faces(hs), i) && Sync.InDrift(c)
  {
    var h := OffsetOfHost(hs, starts, drifts, i);
    c := Analysed(starts[i], h, drifts[i]);
    FacesNearly(hs, i, starts[i], h, drifts[i], c);
  }

  lemma FacesNearly(hs: seq<Host>, i: nat, start: Clocks, h: int, drift: string, c: Sync.Clock)
    requires i < |hs| && InDrift(drift) && Normal(start.realtime, NS) && InTune(hs[i], start, h, drift)
    requires c == Analysed(start, h, drift)
    ensures Sync.Nearly(Faces(hs), i, c, READING_ERROR) && Sync.Forward(Faces(hs), i)
  {
    forall x: real
      ensures Sync.Within(Faces(hs)(i, x), Sync.At(c, x), READING_ERROR)
    {
      ShownNear(hs[i], start, h, drift, x);
    }
    forall x: real, y: real | x <= y
      ensures Faces(hs)(i, x) <= Faces(hs)(i, y)
    {
      ShownMonotone(hs[i], start, h, drift, x, y);
    }
  }

  /** A host whose offset has moved shows exactly that much more. */
  lemma ShownShift(s: Host, s': Host, start: Clocks, h: int, a: int, k: int, drift: string, x: real)
    requires DriftText(drift) && Normal(start.realtime, NS) && k == h + a
    requires InTune(s, start, h, drift) && InTune(s', start, k, drift)
    ensures Shown(s', x) == Shown(s, x) + Sync.Seconds(a)
  {
    WholeNs(x);
    ShowsLine(s, start, h, drift, ToTs(x));
    ShowsLine(s', start, k, drift, ToTs(x));
    ShiftInSeconds(Shows(s, Realtime, ToTs(x)), Shows(s', Realtime, ToTs(x)), a);
  }

  lemma ShiftInSeconds(m: int, n: int, a: int)
    requires n == m + a * NS_PER_HUNDREDTH
    ensures InSeconds(n) == InSeconds(m) + Sync.Seconds(a)
  {
  }

  /** After a round, and whatever is read since, a participant shows what it would have shown and its adjustment. */
  lemma ShownAfter(hs: seq<Host>, starts: seq<Clocks>, drifts: seq<string>, r: Sync.Round, looks: seq<Step>, i: nat,
                   a: int, t: real)
    requires Network(hs, starts, drifts) && Sync.Proper(|hs|, r) && i < |hs| && Sync.Takes(r, i)
    requires forall k | 0 <= k < |looks| :: Possible(|hs|, looks[k]) && looks[k].Looking?
    requires a == Sync.AdjustmentOf(Faces(hs), r, i)
    ensures Shown(After(AfterRound(hs, r), looks)[i], t) == Shown(hs[i], t) + Sync.Seconds(a)
  {
    var h := OffsetOfHost(hs, starts, drifts, i);
    ShownFrom(hs, r, looks, i, starts[i], h, drifts[i], a, h + a, t);
  }

  lemma ShownFrom(hs: seq<Host>, r: Sync.Round, looks: seq<Step>, i: nat, start: Clocks, h: int, drift: string,
                  a: int, k: int, t: real)
    requires Sync.Proper(|hs|, r) && i < |hs| && Sync.Takes(r, i) && DriftText(drift) && Normal(start.realtime, NS)
    requires forall m | 0 <= m < |looks| :: Possible(|hs|, looks[m]) && looks[m].Looking?
    requires InTune(hs[i], start, h, drift) && a == Sync.AdjustmentOf(Faces(hs), r, i) && k == h + a
    ensures Shown(After(AfterRound(hs, r), looks)[i], t) == Shown(hs[i], t) + Sync.Seconds(a)
  {
    StaysAfter(hs, r, looks, i, start, h, drift, a, k);
    ShownShift(hs[i], After(AfterRound(hs, r), looks)[i], start, h, a, k, drift, t);
  }

  lemma StaysAfter(hs: seq<Host>, r: Sync.Round, looks: seq<Step>, i: nat, start: Clocks, h: int, drift: string,
                   a: int, k: int)
    requires Sync.Proper(|hs|, r) && i < |hs| && Sync.Takes(r, i) && DriftText(drift)
    requires forall m | 0 <= m < |looks| :: Possible(|hs|, looks[m]) && looks[m].Looking?
    requires InTune(hs[i], start, h, drift) && a == Sync.AdjustmentOf(Faces(hs), r, i) && k == h + a
    ensures InTune(After(AfterRound(hs, r), looks)[i], start, k, drift)
  {
    RoundMoves(hs, r, i, start, h, drift, k);
    LookingKeeps(AfterRound(hs, r), looks, i, start, k, drift);
  }

  lemma FaceOf(hs: seq<Host>, i: nat, t: real)
    requires i < |hs|
    ensures Faces(hs)(i, t) == Shown(hs[i], t)
  {
  }

  /** The averaging round does on fake clocks what it does on the clocks of the analysis: after any rounds and any
      readings by other programs, two participants of the last round show, once both have been adjusted, the same time,
      up to half their exchanges as the leader's fake clock measures them, one hundredth of a second, what they can have
      drifted apart since they were read, and 13 nanoseconds. */
  lemma HostsSynchronised(hs: seq<Host>, starts: seq<Clocks>, drifts: seq<string>, steps: seq<Step>, r: Sync.Round,
                          looks: seq<Step>, i: nat, j: nat, t: real)
    requires Network(hs, starts, drifts) && Sync.Proper(|hs|, r)
    requires forall k | 0 <= k < |steps| :: Possible(|hs|, steps[k])
    requires forall k | 0 <= k < |looks| :: Possible(|hs|, looks[k]) && looks[k].Looking?
    requires i < |hs| && j < |hs| && InDrift(drifts[i]) && InDrift(drifts[j]) && InDrift(drifts[r.leader])
    requires Sync.BothApplied(r, i, j, t)
    ensures var before := After(hs, steps);
            var out := After(AfterRound(before, r), looks);
            Sync.Within(Shown(out[i], t), Shown(out[j], t),
                        Sync.SkewBound(Sync.ErrorOf(Faces(before), r, i), Sync.ErrorOf(Faces(before), r, j),
                                       Sync.LagOf(r, i, t), Sync.LagOf(r, j, t), READING_ERROR))
  {
    var before := After(hs, steps);
    NetworkKept(hs, starts, drifts, steps);
    LastRound(before, starts, drifts, r, looks, i, j, t);
  }

  lemma LastRound(hs: seq<Host>, starts: seq<Clocks>, drifts: seq<string>, r: Sync.Round, looks: seq<Step>, i: nat,
                  j: nat, t: real)
    requires Network(hs, starts, drifts) && Sync.Proper(|hs|, r)
    requires forall k | 0 <= k < |looks| :: Possible(|hs|, looks[k]) && looks[k].Looking?
    requires i < |hs| && j < |hs| && InDrift(drifts[i]) && InDrift(drifts[j]) && InDrift(drifts[r.leader])
    requires Sync.BothApplied(r, i, j, t)
    ensures var out := After(AfterRound(hs, r), looks);
            Sync.Within(Shown(out[i], t), Shown(out[j], t),
                        Sync.SkewBound(Sync.ErrorOf(Faces(hs), r, i), Sync.ErrorOf(Faces(hs), r, j),
                                       Sync.LagOf(r, i, t), Sync.LagOf(r, j, t), READING_ERROR))
  {
    var L := ClockFor(hs, starts, drifts, r.leader);
    var c, d := L, L;
    if i != r.leader {
      c := ClockFor(hs, starts, drifts, i);
    }
    if j != r.leader {
      d := ClockFor(hs, starts, drifts, j);
    }
    ShownAfter(hs, starts, drifts, r, looks, i, Sync.AdjustmentOf(Faces(hs), r, i), t);
    ShownAfter(hs, starts, drifts, r, looks, j, Sync.AdjustmentOf(Faces(hs), r, j), t);
    FaceOf(hs, i, t);
    FaceOf(hs, j, t);
    var out := After(AfterRound(hs, r), looks);
    Sync.NearlySynchronised(Faces(hs), |hs|, r, i, j, L, c, d, t, READING_ERROR, Shown(out[i], t), Shown(out[j], t));
  }
}
