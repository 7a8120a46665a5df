/** All the clocks of the fake time: each is measured from its own start, remembers its own last reading and restarts
    from that. */
module FakeFamilies {
  import opened TimeOps
  import opened FakeClock
  import opened FakeClockLaws
  import Seqs

  // ---- each clock from its own start --------------------------------------------------------------------------

  /** As long as it does not tick, clock `id` shows the base and, stretched, the time passed since this start. */
  ghost predicate RunsFrom(f: Ft, id: ClockId, start: Ts) {
    forall t: Ts, n: nat | Normal(t, NS) ::
      && Normal(Display(f, id, t, n), NS)
      && Ns(Display(f, id, t, n))
         == Ns(f.base) + (if f.rateSet then Scaled(f.rate, Ns(t) - Ns(start)) else Ns(t) - Ns(start))
  }

  lemma RunsFromIts(f: Ft, id: ClockId, start: Ts)
    requires Normal(f.base, NS) && Normal(start, NS) && !f.incSet && start == OfFamily(f.start, id)
    ensures RunsFrom(f, id, start)
  {
    forall t: Ts, n: nat | Normal(t, NS)
      ensures Normal(Display(f, id, t, n), NS)
      ensures Ns(Display(f, id, t, n))
           == Ns(f.base) + (if f.rateSet then Scaled(f.rate, Ns(t) - Ns(start)) else Ns(t) - Ns(start))
    {
      FakedExact(f, id, t);
    }
  }

  /** The monotonic clocks, the raw one and the one since boot each have a start of their own; all others have that of
      CLOCK_REALTIME. */
  lemma EachFromItsStart(f: Ft)
    requires Normal(f.base, NS) && NormalClocks(f.start) && !f.incSet
    ensures RunsFrom(f, Monotonic, f.start.mon) && RunsFrom(f, MonotonicCoarse, f.start.mon)
    ensures RunsFrom(f, MonotonicRaw, f.start.monRaw) && RunsFrom(f, Boottime, f.start.boot)
    ensures RunsFrom(f, Realtime, f.start.realtime) && RunsFrom(f, RealtimeCoarse, f.start.realtime)
    ensures RunsFrom(f, OtherClock, f.start.realtime)
  {
    RunsFromIts(f, Monotonic, f.start.mon);
    RunsFromIts(f, MonotonicCoarse, f.start.mon);
    RunsFromIts(f, MonotonicRaw, f.start.monRaw);
    RunsFromIts(f, Boottime, f.start.boot);
    RunsFromIts(f, Realtime, f.start.realtime);
    RunsFromIts(f, RealtimeCoarse, f.start.realtime);
    RunsFromIts(f, OtherClock, f.start.realtime);
  }

  /** Read at its start, a clock shows the base. */
  lemma ShowsBase(f: Ft, id: ClockId, start: Ts, n: nat)
    requires Normal(f.base, NS) && Normal(start, NS) && RunsFrom(f, id, start)
    ensures Display(f, id, start, n) == f.base
  {
    TotalInjective(Display(f, id, start, n), f.base, NS);
  }

  /** Once the first specification has been parsed all clocks, each read at its own start, show one time: the start of
      CLOCK_REALTIME and the offset. */
  lemma AllShowOneTime(start: Clocks, spec: string, xreset: bool, n: nat)
    requires NormalClocks(start) && spec != "" && !Ticks(spec)
    ensures var f := Parsed(Unparsed(start), spec, xreset);
            && Ns(f.base) == Ns(start.realtime) + Ns(ToTs(OffsetOf(spec)))
            && Display(f, Realtime, start.realtime, n) == Display(f, RealtimeCoarse, start.realtime, n) == f.base
            && Display(f, Monotonic, start.mon, n) == Display(f, MonotonicCoarse, start.mon, n) == f.base
            && Display(f, MonotonicRaw, start.monRaw, n) == Display(f, Boottime, start.boot, n) == f.base
            && Display(f, OtherClock, start.realtime, n) == f.base
  {
    var f := Parsed(Unparsed(start), spec, xreset);
    BaseParsed(Unparsed(start), spec, xreset);
    RatesParsed(Unparsed(start), spec, xreset);
    EachFromItsStart(f);
    ShowsBase(f, Realtime, start.realtime, n);
    ShowsBase(f, RealtimeCoarse, start.realtime, n);
    ShowsBase(f, Monotonic, start.mon, n);
    ShowsBase(f, MonotonicCoarse, start.mon, n);
    ShowsBase(f, MonotonicRaw, start.monRaw, n);
    ShowsBase(f, Boottime, start.boot, n);
    ShowsBase(f, OtherClock, start.realtime, n);
  }

  /** The real deadline for a faked one lies after the start of CLOCK_MONOTONIC, or of CLOCK_REALTIME, as far as the
      faked one lies after the base, taken back to real time. */
  lemma DeadlinesFromStart(f: Ft, req: Ts)
    requires Normal(f.base, NS) && NormalClocks(f.start) && Normal(req, NS) && (f.rateSet ==> f.rate > 0.0)
    ensures var n := if f.rateSet then Scaled(1.0 / f.rate, Ns(req) - Ns(f.base)) else Ns(req) - Ns(f.base);
            && Ns(Deadline(f, Monotonic, req)) == Ns(f.start.mon) + n
            && Ns(Deadline(f, Realtime, req)) == Ns(f.start.realtime) + n
    ensures req == f.base ==>
              Deadline(f, Monotonic, req) == f.start.mon && Deadline(f, Realtime, req) == f.start.realtime
  {
    var n := DeadlineNs(f, Monotonic, req);
    var k := DeadlineNs(f, Realtime, req);
    if req == f.base {
      if f.rateSet {
        ZeroScaled(1.0 / f.rate);
      }
      TotalInjective(Deadline(f, Monotonic, req), f.start.mon, NS);
      TotalInjective(Deadline(f, Realtime, req), f.start.realtime, NS);
    }
  }

  // ---- each clock's last reading ------------------------------------------------------------------------------

  /** The pair kept for an exact clock; the others keep none. */
  predicate Remembers(f: Ft, id: ClockId, seen: Ts, shown: Ts) {
    match id
    case Realtime => f.seen.realtime == seen && f.shown.realtime == shown
    case Monotonic => f.seen.mon == seen && f.shown.mon == shown
    case MonotonicRaw => f.seen.monRaw == seen && f.shown.monRaw == shown
    case Boottime => f.seen.boot == seen && f.shown.boot == shown
    case _ => true
  }

  lemma NotedRemembers(f: Ft, id: ClockId, t: Ts, n: nat)
    ensures Remembers(Noted(f, id, t, n), id, t, Display(f, id, t, n))
  {
  }

  lemma OthersRemembered(f: Ft, r: Reading, xreset: bool, id: ClockId, seen: Ts, shown: Ts)
    requires Remembers(f, id, seen, shown) && r.id != id
    ensures Remembers(Step(f, r, xreset), id, seen, shown)
  {
    KeepsPair(f, r.env, xreset);
  }

  /** Whatever other clocks are read and whatever is parsed in between, each exact clock's pair is that of its own last
      reading: the system's time then, and what was reported. */
  lemma {:induction false} LastReadingKept(f: Ft, rs: seq<Reading>, xreset: bool, i: nat, k: nat)
    requires i < k <= |rs| && forall j | i < j < k :: rs[j].id != rs[i].id
    ensures Remembers(Run(f, rs[..k], xreset), rs[i].id, rs[i].t, Reported(f, rs, xreset, i))
  {
    Seqs.TakeLast(rs, k);
    RunOne(f, rs[..k - 1], rs[k - 1], xreset);
    var g := Run(f, rs[..k - 1], xreset);
    if i < k - 1 {
      LastReadingKept(f, rs, xreset, i, k - 1);
      OthersRemembered(g, rs[k - 1], xreset, rs[i].id, rs[i].t, Reported(f, rs, xreset, i));
    } else {
      NotedRemembers(Refreshed(g, rs[i], xreset), rs[i].id, rs[i].t, rs[i].ticks);
    }
  }

  // ---- restarts -----------------------------------------------------------------------------------------------

  /** Under FAKETIME_XRESET a changed rate starts every clock again from its own last reading, all of them at what
      CLOCK_REALTIME last showed. */
  lemma EachRestarts(f: Ft, spec: string)
    requires Cached(f) && 'x' in spec && spec != f.saved && !f.incSet
    requires Normal(f.shown.realtime, NS) && NormalClocks(f.seen)
    ensures var g := Parsed(f, spec, true);
            && g.base == f.shown.realtime && g.rateSet && g.rate == RateOf(spec)
            && RunsFrom(g, Monotonic, f.seen.mon) && RunsFrom(g, MonotonicCoarse, f.seen.mon)
            && RunsFrom(g, MonotonicRaw, f.seen.monRaw) && RunsFrom(g, Boottime, f.seen.boot)
            && RunsFrom(g, Realtime, f.seen.realtime) && RunsFrom(g, RealtimeCoarse, f.seen.realtime)
            && RunsFrom(g, OtherClock, f.seen.realtime)
  {
    Restarted(f, spec, RateOf(spec));
    EachFromItsStart(Parsed(f, spec, true));
  }

  /** A clock that has not been read by then has no last reading to start from: it is measured from the unset value, a
      nanosecond before zero, and so leaps ahead by the system clock's whole time. */
  lemma UnreadClockLeaps(f: Ft, spec: string, t: int, n: nat)
    requires Cached(f) && 'x' in spec && spec != f.saved && !f.incSet && f.seen.mon == UNSET
    ensures DisplayNs(Parsed(f, spec, true), Monotonic, t, n)
         == Ns(f.shown.realtime) + Scaled(RateOf(spec), t + 1)
  {
    Restarted(f, spec, RateOf(spec));
    UnsetStart(Parsed(f, spec, true), t, n);
  }

  lemma UnsetStart(g: Ft, t: int, n: nat)
    requires g.rateSet && !g.incSet && g.start.mon == UNSET
    ensures DisplayNs(g, Monotonic, t, n) == Ns(g.base) + Scaled(g.rate, t + 1)
  {
  }

  /** A specification that has not changed is not parsed again: no reading restarts the clock by itself. */
  lemma UnchangedIsIdle(f: Ft, r: Reading, xreset: bool)
    requires r.env == f.saved
    ensures Step(f, r, xreset) == Step(f, r.(expired := false), xreset)
    ensures Answer(f, r, xreset) == Answer(f, r.(expired := false), xreset)
    ensures Parsed(Parsed(f, r.env, xreset), r.env, xreset) == f
  {
  }
}
