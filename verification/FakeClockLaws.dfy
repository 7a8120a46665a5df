/** What the fake clock promises: exactly when a changed specification takes it back, that it never runs backwards
    otherwise, and that absolute deadlines are the inverse of the clock. */
module FakeClockLaws {
  import opened TimeOps
  import opened FakeClock
  import Seqs
  import Text

  lemma ScaledMonotone(c: real, m: int, n: int)
    requires c >= 0.0 && m <= n
    ensures Scaled(c, m) <= Scaled(c, n)
  {
    assert c * (n - m) as real >= 0.0;
    assert c * (n - m) as real == c * n as real - c * m as real;
    TruncMonotone(c * m as real, c * n as real);
  }

  lemma ScaledNegated(c: real, n: int)
    ensures Scaled(c, -n) == -Scaled(c, n)
  {
    assert c * (-n) as real == -(c * n as real);
  }

  lemma ZeroScaled(c: real)
    ensures Scaled(c, 0) == 0
  {
  }

  // ---- a specification in force -------------------------------------------------------------------------------

  /** The increment of a ticking clock, or the rate of another, is not negative. */
  predicate Rising(g: Ft) {
    if g.incSet then Ns(g.inc) >= 0 else g.rateSet ==> g.rate >= 0.0
  }

  /** Whatever the time and the tick count of a later reading are, it does not show less. */
  ghost predicate NeverBelow(g: Ft, since: int, n: nat, shown: int) {
    forall t: int, k: nat | t >= since && k >= n :: DisplayNs(g, Realtime, t, k) >= shown
  }

  lemma DisplayRises(g: Ft, s: int, t: int, n: nat, k: nat)
    requires Rising(g) && s <= t && n <= k
    ensures DisplayNs(g, Realtime, s, n) <= DisplayNs(g, Realtime, t, k)
  {
    if g.incSet {
      assert (k - n) * Ns(g.inc) >= 0;
    } else {
      LineRises(g, s, t);
    }
  }

  lemma LineRises(g: Ft, s: int, t: int)
    requires (g.rateSet ==> g.rate >= 0.0) && s <= t
    ensures FakedNs(g, Realtime, s) <= FakedNs(g, Realtime, t)
  {
    if g.rateSet {
      ScaledMonotone(g.rate, s - Ns(g.start.realtime), t - Ns(g.start.realtime));
    }
  }

  /** A negative rate takes the clock below any bound. */
  lemma FarEnough(c: real, m: int, need: int) returns (d: int)
    requires c < 0.0
    ensures d >= m && Scaled(c, d) <= -need
  {
    var q := (if need > 0 then need else 0) as real + 1.0;
    var x := q / -c;
    d := if x.Floor + 1 > m then x.Floor + 1 else m;
    Below(c, x, q, d as real);
    TruncBounds(c * d as real);
  }

  lemma Below(c: real, x: real, q: real, y: real)
    requires c < 0.0 && q > 0.0 && x == q / -c && y >= x
    ensures c * y <= -q
  {
    assert x * -c == q;
    assert (y - x) * -c >= 0.0;
    assert (y - x) * -c == x * c - y * c;
  }

  lemma FallsBelow(g: Ft, since: int, n: nat, shown: int) returns (t: int, k: nat)
    requires !Rising(g)
    ensures t >= since && k >= n && DisplayNs(g, Realtime, t, k) < shown
  {
    t, k := since, n;
    if g.incSet {
      if Ns(g.base) - shown + 1 > k {
        k := Ns(g.base) - shown + 1;
      }
      assert k * (-1 - Ns(g.inc)) >= 0;
    } else {
      var d := FarEnough(g.rate, since - Ns(g.start.realtime), Ns(g.base) - shown + 1);
      t := Ns(g.start.realtime) + d;
    }
  }

  lemma NeverBelowExactly(g: Ft, since: int, n: nat, shown: int)
    ensures NeverBelow(g, since, n, shown) <==> Rising(g) && DisplayNs(g, Realtime, since, n) >= shown
  {
    if NeverBelow(g, since, n, shown) && !Rising(g) {
      var t, k := FallsBelow(g, since, n, shown);
    }
    if Rising(g) && DisplayNs(g, Realtime, since, n) >= shown {
      forall t: int, k: nat | t >= since && k >= n
        ensures DisplayNs(g, Realtime, t, k) >= shown
      {
        DisplayRises(g, since, t, n, k);
      }
    }
  }

  // ---- a changed specification --------------------------------------------------------------------------------

  /** CLOCK_REALTIME has been read. */
  predicate Cached(f: Ft) {
    f.seen.realtime.frac >= 0
  }

  /** The increment or rate that is in force once the specification has been parsed is not negative: an increment once
      set stays in force whatever rates are named later. */
  predicate Forward(f: Ft, spec: string) {
    if Ticks(spec) then IncrementOf(spec) >= 0.0
    else if f.incSet then Ns(f.inc) >= 0
    else if 'x' in spec then RateOf(spec) >= 0.0
    else f.rateSet ==> f.rate >= 0.0
  }

  /** Whether parsing restarts the clock from the pair last seen and shown. */
  predicate Restarts(f: Ft, spec: string, xreset: bool) {
    'x' in spec && xreset && Cached(f)
  }

  function NewBase(f: Ft, spec: string, xreset: bool): int {
    if Restarts(f, spec, xreset) then Ns(f.shown.realtime)
    else Ns(f.start.realtime) + Ns(ToTs(OffsetOf(spec)))
  }

  /** Real time between the start the clock will then have and its last CLOCK_REALTIME reading. */
  function Elapsed(f: Ft, spec: string, xreset: bool): int {
    if Restarts(f, spec, xreset) then 0 else Ns(f.seen.realtime) - Ns(f.start.realtime)
  }

  /** What the specification would have shown at the last CLOCK_REALTIME reading, n ticks being counted by now. */
  function ShownAgain(f: Ft, spec: string, xreset: bool, n: nat): int {
    NewBase(f, spec, xreset) +
    if Ticks(spec) then n * Ns(ToTs(IncrementOf(spec)))
    else if f.incSet then n * Ns(f.inc)
    else if 'x' in spec then Scaled(RateOf(spec), Elapsed(f, spec, xreset))
    else StretchedNs(f, Elapsed(f, spec, xreset))
  }

  /** What a changed specification must satisfy for the clock not to fall back. */
  predicate KeepsUp(f: Ft, spec: string, xreset: bool, n: nat) {
    Forward(f, spec) && ShownAgain(f, spec, xreset, n) >= Ns(f.shown.realtime)
  }

  lemma SignOfTs(x: real)
    ensures Ns(ToTs(x)) >= 0 <==> x >= 0.0
  {
    ToTsNormal(x);
  }

  lemma ForwardIsRising(f: Ft, spec: string, xreset: bool)
    requires spec != f.saved
    ensures Rising(Parsed(f, spec, xreset)) <==> Forward(f, spec)
  {
    if Ticks(spec) {
      SignOfTs(IncrementOf(spec));
    }
  }

  lemma BaseParsed(f: Ft, spec: string, xreset: bool)
    requires spec != f.saved && Normal(f.start.realtime, NS)
    ensures Ns(Parsed(f, spec, xreset).base) == NewBase(f, spec, xreset)
    ensures Cached(f) && Restarts(f, spec, xreset) ==> Parsed(f, spec, xreset).start == f.seen
    ensures !Restarts(f, spec, xreset) ==> Parsed(f, spec, xreset).start == f.start
    ensures !Restarts(f, spec, xreset) ==> Normal(Parsed(f, spec, xreset).base, NS)
  {
    OffsetExact(f.start.realtime, OffsetOf(spec));
  }

  lemma OffsetExact(start: Ts, off: real)
    requires Normal(start, NS)
    ensures Normal(Add(start, ToTs(off), NS), NS) && Ns(Add(start, ToTs(off), NS)) == Ns(start) + Ns(ToTs(off))
  {
    ToTsNormal(off);
    AddExact(start, ToTs(off), NS);
  }

  lemma ShownAgainIs(f: Ft, spec: string, xreset: bool, n: nat)
    requires spec != f.saved && Cached(f) && Normal(f.start.realtime, NS)
    ensures DisplayNs(Parsed(f, spec, xreset), Realtime, Ns(f.seen.realtime), n) == ShownAgain(f, spec, xreset, n)
  {
    BaseParsed(f, spec, xreset);
    RatesParsed(f, spec, xreset);
    DisplayAfter(Parsed(f, spec, xreset), Ns(f.seen.realtime), n, NewBase(f, spec, xreset), Elapsed(f, spec, xreset));
  }

  lemma RatesParsed(f: Ft, spec: string, xreset: bool)
    requires spec != f.saved
    ensures var g := Parsed(f, spec, xreset);
            && g.incSet == (f.incSet || Ticks(spec))
            && g.inc == (if Ticks(spec) then ToTs(IncrementOf(spec)) else f.inc)
            && g.rateSet == (f.rateSet || 'x' in spec)
            && g.rate == (if 'x' in spec then RateOf(spec) else f.rate)
  {
  }

  lemma DisplayAfter(g: Ft, t: int, n: nat, base: int, elapsed: int)
    requires Ns(g.base) == base && t - Ns(g.start.realtime) == elapsed
    ensures DisplayNs(g, Realtime, t, n) == base + if g.incSet then n * Ns(g.inc) else StretchedNs(g, elapsed)
  {
  }

  /** A changed specification keeps the clock from falling back, at every later time and tick count, exactly when the
      increment or rate then in force is not negative and what it would have shown at the last reading is not less
      than what was shown; FAKETIME_XRESET or not. */
  lemma NeverBackExactly(f: Ft, spec: string, xreset: bool, n: nat)
    requires Cached(f) && Normal(f.start.realtime, NS) && OffsetSpec(spec) && spec != f.saved
    ensures NeverBelow(Parsed(f, spec, xreset), Ns(f.seen.realtime), n, Ns(f.shown.realtime))
       <==> KeepsUp(f, spec, xreset, n)
  {
    NeverBelowExactly(Parsed(f, spec, xreset), Ns(f.seen.realtime), n, Ns(f.shown.realtime));
    ForwardIsRising(f, spec, xreset);
    ShownAgainIs(f, spec, xreset, n);
  }

  // ---- its cases under FAKETIME_XRESET ------------------------------------------------------------------------

  /** A changed rate restarts the clock from the pair last seen and shown: nothing of the new offset or the old rate is
      left. A clock that ticks goes on ticking, from there and with all the ticks counted. */
  lemma RestartsWhereItStood(f: Ft, spec: string, t: int, n: nat)
    requires Cached(f) && 'x' in spec && spec != f.saved
    ensures DisplayNs(Parsed(f, spec, true), Realtime, t, n)
         == Ns(f.shown.realtime) + if f.incSet then n * Ns(f.inc) else Scaled(RateOf(spec), t - Ns(f.seen.realtime))
  {
    Restarted(f, spec, RateOf(spec));
    FromThePair(f, Parsed(f, spec, true), spec, RateOf(spec), t, n);
  }

  lemma FromThePair(f: Ft, g: Ft, spec: string, c: real, t: int, n: nat)
    requires g == f.(base := f.shown.realtime, start := f.seen, rate := c, rateSet := true, saved := spec)
    ensures DisplayNs(g, Realtime, t, n)
         == Ns(f.shown.realtime) + if f.incSet then n * Ns(f.inc) else Scaled(c, t - Ns(f.seen.realtime))
  {
  }

  lemma Restarted(f: Ft, spec: string, c: real)
    requires Cached(f) && 'x' in spec && spec != f.saved && c == RateOf(spec)
    ensures Parsed(f, spec, true)
         == f.(base := f.shown.realtime, start := f.seen, rate := c, rateSet := true, saved := spec)
  {
  }

  /** With a rate: exactly when that, or the increment of a ticking clock, is not negative. */
  lemma NonNegativeRateIsExact(f: Ft, spec: string, n: nat)
    requires Cached(f) && 'x' in spec && spec != f.saved
    ensures NeverBelow(Parsed(f, spec, true), Ns(f.seen.realtime), n, Ns(f.shown.realtime))
       <==> if f.incSet then Ns(f.inc) >= 0 else RateOf(spec) >= 0.0
  {
    var seen, shown := Ns(f.seen.realtime), Ns(f.shown.realtime);
    NeverBelowExactly(Parsed(f, spec, true), seen, n, shown);
    ForwardIsRising(f, spec, true);
    RestartsWhereItStood(f, spec, seen, n);
    NotLess(shown, n, Ns(f.inc), f.incSet, RateOf(spec));
  }

  lemma NotLess(shown: int, n: nat, inc: int, ticks: bool, c: real)
    ensures ticks && inc >= 0 ==> shown + n * inc >= shown
    ensures shown + Scaled(c, 0) >= shown
  {
    ZeroScaled(c);
  }

  /** With an increment: exactly when that is not negative and the clock it starts, at the offset and with all the ticks
      counted, does not stand below what was shown. */
  lemma TicksExactly(f: Ft, spec: string, xreset: bool, n: nat)
    requires Cached(f) && Normal(f.start.realtime, NS) && Ticks(spec) && spec != f.saved
    ensures NeverBelow(Parsed(f, spec, xreset), Ns(f.seen.realtime), n, Ns(f.shown.realtime))
       <==> IncrementOf(spec) >= 0.0
            && Ns(f.start.realtime) + Ns(ToTs(OffsetOf(spec))) + n * Ns(ToTs(IncrementOf(spec)))
               >= Ns(f.shown.realtime)
  {
    NeverBelowExactly(Parsed(f, spec, xreset), Ns(f.seen.realtime), n, Ns(f.shown.realtime));
    ForwardIsRising(f, spec, xreset);
    ShownAgainIs(f, spec, xreset, n);
  }

  /** The remembered pair of real and faked time lies on the current line. */
  predicate OnLine(f: Ft) {
    Cached(f) && Ns(f.shown.realtime) == FakedNs(f, Realtime, Ns(f.seen.realtime))
  }

  /** Without an x or an i there is no restart: the clock moves to the new offset from the old start, at the old rate or
      with the old increment. */
  lemma RebasedFromStart(f: Ft, spec: string, xreset: bool, t: int, n: nat)
    requires 'x' !in spec && 'i' !in spec && spec != f.saved && Normal(f.start.realtime, NS)
    ensures DisplayNs(Parsed(f, spec, xreset), Realtime, t, n)
         == DisplayNs(f, Realtime, t, n) + (Ns(f.start.realtime) + Ns(ToTs(OffsetOf(spec))) - Ns(f.base))
    ensures Normal(Parsed(f, spec, xreset).base, NS)
  {
    BaseParsed(f, spec, xreset);
    RatesParsed(f, spec, xreset);
    var g, elapsed := Parsed(f, spec, xreset), t - Ns(f.start.realtime);
    DisplayAfter(f, t, n, Ns(f.base), elapsed);
    DisplayAfter(g, t, n, NewBase(f, spec, xreset), elapsed);
    SameStretch(f, g, elapsed);
  }

  lemma SameStretch(f: Ft, g: Ft, d: int)
    requires g.rateSet == f.rateSet && g.rate == f.rate
    ensures StretchedNs(g, d) == StretchedNs(f, d)
  {
  }

  /** So a clock that does not tick does not fall back exactly when the new base is not earlier than the present one. */
  lemma LaterBaseIsExact(f: Ft, spec: string, xreset: bool, n: nat)
    requires OnLine(f) && Rising(f) && !f.incSet && Normal(f.start.realtime, NS)
    requires 'x' !in spec && 'i' !in spec && spec != f.saved
    ensures NeverBelow(Parsed(f, spec, xreset), Ns(f.seen.realtime), n, Ns(f.shown.realtime))
       <==> Ns(f.start.realtime) + Ns(ToTs(OffsetOf(spec))) >= Ns(f.base)
  {
    NeverBelowExactly(Parsed(f, spec, xreset), Ns(f.seen.realtime), n, Ns(f.shown.realtime));
    RebasedFromStart(f, spec, xreset, Ns(f.seen.realtime), n);
    ForwardIsRising(f, spec, xreset);
  }

  // ---- specifications that take the clock back ----------------------------------------------------------------

  /** A reading and, at the same instant and tick count, the first under the specification. */
  lemma ReadAgain(f: Ft, spec: string, xreset: bool, t: Ts, n: nat)
    requires Normal(f.base, NS) && Normal(f.start.realtime, NS) && Normal(t, NS)
    requires 'x' !in spec && spec != f.saved
    ensures Ns(Display(f, Realtime, t, n)) == DisplayNs(f, Realtime, Ns(t), n)
    ensures Ns(Answer(Noted(f, Realtime, t, n), Reading(Realtime, t, true, spec, n), xreset))
         == DisplayNs(Parsed(Noted(f, Realtime, t, n), spec, xreset), Realtime, Ns(t), n)
  {
    var g := Noted(f, Realtime, t, n);
    DisplayExact(f, Realtime, t, n);
    BaseParsed(g, spec, xreset);
    DisplayExact(Parsed(g, spec, xreset), Realtime, t, n);
  }

  const FIRST: string := "+100 x1"
  const TICKING: string := "+100 i1"
  const PLUS_ZERO: string := "+0"

  /** The plain "+0", which an unset FAKETIME stands for, takes back whatever the base is ahead of the start,
      FAKETIME_XRESET or not. */
  lemma PlusZeroFallsBack(f: Ft, spec: string, xreset: bool, t: Ts, n: nat)
    requires Normal(f.base, NS) && Normal(f.start.realtime, NS) && Normal(t, NS)
    requires spec == PLUS_ZERO && spec != f.saved
    ensures Ns(Answer(Noted(f, Realtime, t, n), Reading(Realtime, t, true, spec, n), xreset))
         == Ns(Display(f, Realtime, t, n)) - (Ns(f.base) - Ns(f.start.realtime))
  {
    NoLetters();
    PlusZeroNs(spec);
    ReadAgain(f, spec, xreset, t, n);
    RebasedFromStart(Noted(f, Realtime, t, n), spec, xreset, Ns(t), n);
  }

  lemma PlusZeroNs(spec: string)
    requires spec == PLUS_ZERO
    ensures 0 == Ns(ToTs(OffsetOf(spec)))
  {
    ZeroOffset();
    ZeroNs(OffsetOf(spec));
  }

  lemma ZeroNs(x: real)
    requires x == 0.0
    ensures Ns(ToTs(x)) == 0
  {
  }

  lemma NoLetters()
    ensures 'x' !in PLUS_ZERO && 'i' !in PLUS_ZERO
  {
  }

  /** The clock as the specification "+100 x1" starts it. */
  function HundredAhead(system: Clocks, xreset: bool): Ft {
    Parsed(Unparsed(system), FIRST, xreset)
  }

  /** Such a clock is 100 seconds ahead at rate 1. */
  lemma HundredStart(system: Clocks, xreset: bool)
    requires NormalClocks(system)
    ensures var f := HundredAhead(system, xreset);
            && Normal(f.base, NS) && f.start == system && f.saved == FIRST && f.rate == 1.0 && f.rateSet && !f.incSet
            && Ns(f.base) == Ns(f.start.realtime) + 100 * NS
  {
    HundredOffset(FIRST, " x1");
    RateOne();
    AsParsed(system, xreset);
    HundredSeconds(system.realtime);
  }

  lemma DifferentSpecs()
    ensures FIRST != PLUS_ZERO && FIRST != TICKING
  {
    assert |FIRST| == 7 && |PLUS_ZERO| == 2 && FIRST[5] == 'x' && TICKING[5] == 'i';
  }

  /** So "+0" takes it back by 100 seconds: read twice at the same instant, with the change in between. */
  lemma HundredFallBack(system: Clocks, xreset: bool, t: Ts, n: nat, spec: string)
    requires NormalClocks(system) && Normal(t, NS) && spec == PLUS_ZERO
    ensures var f := HundredAhead(system, xreset);
            Ns(Answer(Noted(f, Realtime, t, n), Reading(Realtime, t, true, spec, n), xreset))
            == Ns(Display(f, Realtime, t, n)) - 100 * NS
  {
    HundredStart(system, xreset);
    DifferentSpecs();
    PlusZeroFallsBack(HundredAhead(system, xreset), spec, xreset, t, n);
  }

  /** And "+100 i1", whose offset is the same, takes back all the time that has passed but a second for every tick. */
  lemma TicksFallBack(system: Clocks, xreset: bool, t: Ts, n: nat, spec: string)
    requires NormalClocks(system) && Normal(t, NS) && spec == TICKING
    ensures var f := HundredAhead(system, xreset);
            Ns(Answer(Noted(f, Realtime, t, n), Reading(Realtime, t, true, spec, n), xreset))
            == Ns(Display(f, Realtime, t, n)) - (Ns(t) - Ns(system.realtime)) + n * NS
  {
    var f := HundredAhead(system, xreset);
    HundredStart(system, xreset);
    DifferentSpecs();
    TickingSpec();
    ReadAgain(f, spec, xreset, t, n);
    SecondTicks(Noted(f, Realtime, t, n), spec, xreset, Ns(t), n);
    UnitRate(f, Ns(t));
  }

  /** What "+100 i1" shows. */
  lemma SecondTicks(f: Ft, spec: string, xreset: bool, t: int, n: nat)
    requires Ticks(spec) && OffsetOf(spec) == 100.0 && IncrementOf(spec) == 1.0
    requires spec != f.saved && Normal(f.start.realtime, NS)
    ensures DisplayNs(Parsed(f, spec, xreset), Realtime, t, n) == Ns(f.start.realtime) + 100 * NS + n * NS
  {
    BaseParsed(f, spec, xreset);
    assert Ns(ToTs(100.0)) == 100 * NS && Ns(ToTs(1.0)) == NS;
  }

  lemma UnitRate(f: Ft, t: int)
    requires f.rateSet && f.rate == 1.0
    ensures FakedNs(f, Realtime, t) == Ns(f.base) + (t - Ns(f.start.realtime))
  {
    assert 1.0 * (t - Ns(f.start.realtime)) as real == (t - Ns(f.start.realtime)) as real;
  }

  lemma HundredOffset(spec: string, tail: string)
    requires spec == "+100" + tail && |tail| > 0 && tail[0] == ' '
    requires 'm' !in tail && 'h' !in tail && 'd' !in tail && 'y' !in tail
    ensures OffsetOf(spec) == 100.0
  {
    HundredReads(spec, tail);
    NoUnit(spec, tail);
    PlainSeconds(Text.Atof(spec), spec);
  }

  lemma NoUnit(spec: string, tail: string)
    requires spec == "+100" + tail && 'm' !in tail && 'h' !in tail && 'd' !in tail && 'y' !in tail
    ensures 'm' !in spec && 'h' !in spec && 'd' !in spec && 'y' !in spec
  {
  }

  lemma HundredReads(spec: string, tail: string)
    requires spec == "+100" + tail && |tail| > 0 && tail[0] == ' '
    ensures Text.Atof(spec) == 100.0
  {
    WholeNumbers();
    Text.PlusReads(spec, "100", tail);
  }

  lemma RateOne()
    ensures 'x' in FIRST && RateOf(FIRST) == 1.0
  {
    assert FIRST[5] == 'x' && Text.IndexOf(FIRST, 'x') == 5;
    assert After(FIRST, 'x') == "1";
    OneIsOne(After(FIRST, 'x'));
  }

  lemma TickingSpec()
    ensures Ticks(TICKING) && OffsetOf(TICKING) == 100.0 && IncrementOf(TICKING) == 1.0
  {
    SecondIncrement();
    TickingOffset(TICKING, " i1");
  }

  lemma TickingOffset(spec: string, tail: string)
    requires spec == TICKING && tail == " i1"
    ensures OffsetOf(spec) == 100.0
  {
    HundredOffset(spec, tail);
  }

  lemma SecondIncrement()
    ensures Ticks(TICKING) && IncrementOf(TICKING) == 1.0
  {
    TickingLetters();
    OneIsOne(After(TICKING, 'i'));
  }

  lemma TickingLetters()
    ensures Ticks(TICKING) && After(TICKING, 'i') == "1"
  {
    TickingHasNoRate();
    IncrementAt(TICKING);
    assert TICKING[6..] == "1";
  }

  lemma IncrementAt(s: string)
    requires |s| == 7 && s[5] == 'i' && forall j | 0 <= j < 5 :: s[j] != 'i'
    ensures 'i' in s && After(s, 'i') == s[6..]
  {
    Text.FirstSeparator(s[..5], 'i', s[6..]);
    assert s[..5] + ['i'] + s[6..] == s;
  }

  lemma TickingHasNoRate()
    ensures 'x' !in TICKING && |TICKING| == 7 && TICKING[5] == 'i'
    ensures forall j | 0 <= j < 5 :: TICKING[j] != 'i'
  {
  }

  lemma OneIsOne(s: string)
    requires s == "1"
    ensures Text.Atof(s) == 1.0
  {
    WholeNumbers();
    Text.WholeReads(s, s, "");
  }

  lemma ZeroOffset()
    ensures OffsetOf(PLUS_ZERO) == 0.0
  {
    WholeNumbers();
    Text.PlusReads(PLUS_ZERO, "0", "");
  }

  lemma WholeNumbers()
    ensures Text.ValueOf("100") == 100 && Text.ValueOf("1") == 1 && Text.ValueOf("0") == 0
  {
    assert "100"[..2] == "10" && "10"[..1] == "1" && "1"[..0] == "" && "0"[..0] == "";
    assert Text.ValueOf("1") == 1;
    assert Text.ValueOf("10") == 10;
  }

  const BACKWARDS: string := "+0 x -1"

  /** A rate after a blank is read, and this one never keeps up. */
  lemma BlankBeforeRate()
    ensures 'x' in BACKWARDS && RateOf(BACKWARDS) == -1.0
  {
    assert BACKWARDS[3] == 'x' && Text.IndexOf(BACKWARDS, 'x') == 3;
    assert After(BACKWARDS, 'x') == " -1";
    MinusOne(After(BACKWARDS, 'x'));
  }

  lemma MinusOne(s: string)
    requires s == " -1"
    ensures Text.Atof(s) == -1.0
  {
    WholeNumbers();
    Text.MinusReads(s, "1", "");
  }

  lemma HundredSeconds(t: Ts)
    requires Normal(t, NS)
    ensures Normal(Add(t, ToTs(100.0), NS), NS) && Ns(Add(t, ToTs(100.0), NS)) == Ns(t) + 100 * NS
  {
    OffsetExact(t, 100.0);
  }

  lemma AsParsed(system: Clocks, xreset: bool)
    requires OffsetOf(FIRST) == 100.0 && 'x' in FIRST && RateOf(FIRST) == 1.0
    ensures HundredAhead(system, xreset)
         == Unparsed(system).(base := Add(system.realtime, ToTs(100.0), NS), rate := 1.0, rateSet := true,
                              saved := FIRST)
  {
  }

  // ---- runs of readings ---------------------------------------------------------------------------------------

  predicate Sound(f: Ft) {
    && Normal(f.base, NS) && Normal(f.start.realtime, NS) && Rising(f)
    && (Cached(f) ==> Normal(f.seen.realtime, NS) && Normal(f.shown.realtime, NS))
  }

  /** The remembered pair lies on what the clock would show, n ticks being counted, or below it. */
  predicate UnderLine(f: Ft, n: nat) {
    Sound(f) && (Cached(f) ==> Ns(f.shown.realtime) <= DisplayNs(f, Realtime, Ns(f.seen.realtime), n))
  }

  /** A changed specification that will not take the clock back; before the first reading there is nothing to take
      back. */
  predicate Safe(f: Ft, spec: string, xreset: bool, n: nat) {
    OffsetSpec(spec) && if Cached(f) then KeepsUp(f, spec, xreset, n) else Forward(f, spec)
  }

  lemma FirstParse(system: Clocks, spec: string, xreset: bool)
    requires NormalClocks(system) && spec != "" && Safe(Unparsed(system), spec, xreset, 0)
    ensures Sound(Parsed(Unparsed(system), spec, xreset)) && !Cached(Parsed(Unparsed(system), spec, xreset))
  {
    BaseParsed(Unparsed(system), spec, xreset);
    ForwardIsRising(Unparsed(system), spec, xreset);
  }

  lemma ParsedUnderLine(f: Ft, spec: string, xreset: bool, n: nat)
    requires UnderLine(f, n) && (spec == f.saved || Safe(f, spec, xreset, n))
    ensures var g := Parsed(f, spec, xreset);
            UnderLine(g, n) && g.seen == f.seen && g.shown == f.shown
  {
    if spec != f.saved {
      BaseParsed(f, spec, xreset);
      ForwardIsRising(f, spec, xreset);
      KeepsPair(f, spec, xreset);
      if Cached(f) {
        ShownAgainIs(f, spec, xreset, n);
      }
    }
  }

  /** Parsing leaves the remembered pair alone; what it may start the clock from is normalised. */
  lemma KeepsPair(f: Ft, spec: string, xreset: bool)
    ensures var g := Parsed(f, spec, xreset);
            && g.seen == f.seen && g.shown == f.shown
            && (Restarts(f, spec, xreset) && spec != f.saved ==> g.base == f.shown.realtime && g.start == f.seen)
  {
  }

  /** One reading of any clock, re-parsing or not: the invariant is kept, a CLOCK_REALTIME reading that is not earlier
      than the last one does not show an earlier time, and other clocks leave the remembered pair alone. */
  lemma ReadingKeepsLine(f: Ft, r: Reading, xreset: bool, n: nat)
    requires UnderLine(f, n) && n <= r.ticks && Normal(r.t, NS)
    requires r.expired ==> r.env == f.saved || Safe(f, r.env, xreset, r.ticks)
    requires r.id.Realtime? && Cached(f) ==> Ns(f.seen.realtime) <= Ns(r.t)
    ensures UnderLine(Step(f, r, xreset), r.ticks)
    ensures r.id.Realtime? ==>
              && Cached(Step(f, r, xreset))
              && Step(f, r, xreset).seen.realtime == r.t && Step(f, r, xreset).shown.realtime == Answer(f, r, xreset)
              && (Cached(f) ==> Ns(f.shown.realtime) <= Ns(Answer(f, r, xreset)))
    ensures !r.id.Realtime? ==>
              && Step(f, r, xreset).seen.realtime == f.seen.realtime
              && Step(f, r, xreset).shown.realtime == f.shown.realtime
  {
    var g := Refreshed(f, r, xreset);
    MoreTicks(f, n, r.ticks);
    if r.expired {
      ParsedUnderLine(f, r.env, xreset, r.ticks);
    }
    if r.id.Realtime? {
      RealtimeOnLine(g, r.t, r.ticks);
    } else {
      OthersKeepLine(g, r.id, r.t, r.ticks);
    }
  }

  lemma MoreTicks(f: Ft, n: nat, k: nat)
    requires UnderLine(f, n) && n <= k
    ensures UnderLine(f, k)
  {
    if Cached(f) {
      DisplayRises(f, Ns(f.seen.realtime), Ns(f.seen.realtime), n, k);
    }
  }

  lemma RealtimeOnLine(g: Ft, t: Ts, n: nat)
    requires UnderLine(g, n) && Normal(t, NS) && (Cached(g) ==> Ns(g.seen.realtime) <= Ns(t))
    ensures UnderLine(Noted(g, Realtime, t, n), n)
    ensures Cached(g) ==> Ns(g.shown.realtime) <= Ns(Display(g, Realtime, t, n))
  {
    DisplayExact(g, Realtime, t, n);
    if Cached(g) {
      DisplayRises(g, Ns(g.seen.realtime), Ns(t), n, n);
    }
  }

  lemma OthersKeepLine(g: Ft, id: ClockId, t: Ts, n: nat)
    requires UnderLine(g, n) && !id.Realtime?
    ensures UnderLine(Noted(g, id, t, n), n)
    ensures Noted(g, id, t, n).seen.realtime == g.seen.realtime && Noted(g, id, t, n).shown.realtime == g.shown.realtime
  {
  }

  function Run(f: Ft, rs: seq<Reading>, xreset: bool): Ft {
    if rs == [] then f else Step(Run(f, rs[..|rs| - 1], xreset), rs[|rs| - 1], xreset)
  }

  /** What reading k of the run reports. */
  function Reported(f: Ft, rs: seq<Reading>, xreset: bool, k: nat): Ts
    requires k < |rs|
  {
    Answer(Run(f, rs[..k], xreset), rs[k], xreset)
  }

  /** No changed specification takes the clock back when it is parsed, the system clock does not step back, and ticks
      are counted up. */
  predicate Steady(f: Ft, rs: seq<Reading>, xreset: bool) {
    && (forall k | 0 <= k < |rs| :: Normal(rs[k].t, NS))
    && (forall k | 0 <= k < |rs| && rs[k].expired ::
          var g := Run(f, rs[..k], xreset);
          rs[k].env == g.saved || Safe(g, rs[k].env, xreset, rs[k].ticks))
    && (forall j, k | 0 <= j < k < |rs| && rs[j].id.Realtime? && rs[k].id.Realtime? :: Ns(rs[j].t) <= Ns(rs[k].t))
    && (forall j, k | 0 <= j < k < |rs| :: rs[j].ticks <= rs[k].ticks)
  }

  function LastTicks(rs: seq<Reading>): nat {
    if rs == [] then 0 else rs[|rs| - 1].ticks
  }

  /** The remembered pair is that of some CLOCK_REALTIME reading from number i on, and shows no less than that of
      number i. */
  predicate Since(f: Ft, rs: seq<Reading>, i: nat, shown: int) {
    && Cached(f) && shown <= Ns(f.shown.realtime)
    && exists m | i <= m < |rs| :: rs[m].id.Realtime? && f.seen.realtime == rs[m].t
  }

  lemma {:induction false} RunUnderLine(f: Ft, rs: seq<Reading>, xreset: bool, k: nat)
    requires Sound(f) && !Cached(f) && Steady(f, rs, xreset) && k <= |rs|
    ensures var g := Run(f, rs[..k], xreset);
            && UnderLine(g, LastTicks(rs[..k]))
            && (Cached(g) ==> exists m | 0 <= m < k :: rs[m].id.Realtime? && g.seen.realtime == rs[m].t)
  {
    if k > 0 {
      RunUnderLine(f, rs, xreset, k - 1);
      Seqs.TakeLast(rs, k);
      RunOne(f, rs[..k - 1], rs[k - 1], xreset);
      PairStays(Run(f, rs[..k - 1], xreset), rs, xreset, k - 1);
    }
  }

  lemma PairStays(g: Ft, rs: seq<Reading>, xreset: bool, k: nat)
    requires k < |rs| && Admits(g, rs[k], xreset, LastTicks(rs[..k]))
    requires Cached(g) ==> exists m | 0 <= m < k :: rs[m].id.Realtime? && g.seen.realtime == rs[m].t
    ensures var r := Step(g, rs[k], xreset);
            && UnderLine(r, rs[k].ticks)
            && (Cached(r) ==> exists m | 0 <= m < k + 1 :: rs[m].id.Realtime? && r.seen.realtime == rs[m].t)
  {
    ReadingKeepsLine(g, rs[k], xreset, LastTicks(rs[..k]));
    if !rs[k].id.Realtime? && Cached(g) {
      var m :| 0 <= m < k && rs[m].id.Realtime? && g.seen.realtime == rs[m].t;
    }
  }

  /** What a step asks of a reading. */
  predicate Admits(g: Ft, r: Reading, xreset: bool, n: nat) {
    && UnderLine(g, n) && n <= r.ticks && Normal(r.t, NS)
    && (r.expired ==> r.env == g.saved || Safe(g, r.env, xreset, r.ticks))
    && (r.id.Realtime? && Cached(g) ==> Ns(g.seen.realtime) <= Ns(r.t))
  }

  /** One more reading of a run whose last pair shows no less than reading i did. */
  lemma SinceOne(g: Ft, rs: seq<Reading>, i: nat, r: Reading, xreset: bool, n: nat, shown: int)
    requires Admits(g, r, xreset, n) && Since(g, rs, i, shown) && i <= |rs|
    ensures Since(Step(g, r, xreset), rs + [r], i, shown)
  {
    ReadingKeepsLine(g, r, xreset, n);
    var m :| i <= m < |rs| && rs[m].id.Realtime? && g.seen.realtime == rs[m].t;
    var all := rs + [r];
    assert all[m] == rs[m] && all[|rs|] == r;
    assert Cached(Step(g, r, xreset));
  }

  /** Reading i itself, taken of CLOCK_REALTIME. */
  lemma SinceFirst(g: Ft, rs: seq<Reading>, r: Reading, xreset: bool, n: nat)
    requires Admits(g, r, xreset, n) && r.id.Realtime?
    ensures Since(Step(g, r, xreset), rs + [r], |rs|, Ns(Answer(g, r, xreset)))
  {
    ReadingKeepsLine(g, r, xreset, n);
    assert (rs + [r])[|rs|] == r;
  }

  lemma Admissible(f: Ft, rs: seq<Reading>, xreset: bool, k: nat)
    requires Sound(f) && !Cached(f) && Steady(f, rs, xreset) && k < |rs|
    ensures Admits(Run(f, rs[..k], xreset), rs[k], xreset, LastTicks(rs[..k]))
  {
    RunUnderLine(f, rs, xreset, k);
  }

  lemma RunOne(f: Ft, rs: seq<Reading>, r: Reading, xreset: bool)
    ensures Run(f, rs + [r], xreset) == Step(Run(f, rs, xreset), r, xreset)
  {
    assert (rs + [r])[..|rs|] == rs;
  }

  lemma {:induction false} ShownSince(f: Ft, rs: seq<Reading>, xreset: bool, i: nat, k: nat)
    requires Sound(f) && !Cached(f) && Steady(f, rs, xreset) && i < k <= |rs| && rs[i].id.Realtime?
    ensures Since(Run(f, rs[..k], xreset), rs[..k], i, Ns(Reported(f, rs, xreset, i)))
  {
    Seqs.TakeLast(rs, k);
    RunOne(f, rs[..k - 1], rs[k - 1], xreset);
    Admissible(f, rs, xreset, k - 1);
    var g, n := Run(f, rs[..k - 1], xreset), LastTicks(rs[..k - 1]);
    if i < k - 1 {
      ShownSince(f, rs, xreset, i, k - 1);
      SinceOne(g, rs[..k - 1], i, rs[k - 1], xreset, n, Ns(Reported(f, rs, xreset, i)));
    } else {
      SinceFirst(g, rs[..k - 1], rs[k - 1], xreset, n);
    }
  }

  /** The times reported for CLOCK_REALTIME never decrease, whatever sequence of such specifications is put in force
      between readings and whichever clock's reading notices the change. */
  lemma NeverFallsBack(f: Ft, rs: seq<Reading>, xreset: bool, i: nat, j: nat)
    requires Sound(f) && !Cached(f) && Steady(f, rs, xreset)
    requires i < j < |rs| && rs[i].id.Realtime? && rs[j].id.Realtime?
    ensures Ns(Reported(f, rs, xreset, i)) <= Ns(Reported(f, rs, xreset, j))
  {
    ShownSince(f, rs, xreset, i, j);
    Admissible(f, rs, xreset, j);
    ReadingKeepsLine(Run(f, rs[..j], xreset), rs[j], xreset, LastTicks(rs[..j]));
  }

  // ---- absolute deadlines ---------------------------------------------------------------------------------

  lemma InverseScaling(c: real, d: int)
    requires c > 0.0 && d >= 0
    ensures var n := Scaled(1.0 / c, d);
            d as real - c - 1.0 < Scaled(c, n) as real && Scaled(c, n) <= d <= Scaled(c, n + 1)
  {
    Reciprocal(c, 1.0 / c, d as real);
    InverseOf(c, (1.0 / c) * d as real, Scaled(1.0 / c, d), d);
  }

  lemma InverseOf(c: real, x: real, n: int, d: int)
    requires c > 0.0 && x >= 0.0 && c * x == d as real && n == Trunc(x)
    ensures d as real - c - 1.0 < Scaled(c, n) as real && Scaled(c, n) <= d <= Scaled(c, n + 1)
  {
    TruncBounds(x);
    var p := Products(c, x, n, d as real);
    FloorsAround(p, c, d);
  }

  /** The multiples of c next to d. */
  lemma Products(c: real, x: real, n: int, d: real) returns (p: real)
    requires c > 0.0 && 0 <= n && n as real <= x < n as real + 1.0 && c * x == d
    ensures Scaled(c, n) == Trunc(p) && Scaled(c, n + 1) == Trunc(p + c) && 0.0 <= p <= d < p + c
  {
    p := c * n as real;
    Bracket(c, x, n as real, d);
    NextProduct(c, n);
  }

  lemma NextProduct(c: real, n: int)
    ensures Scaled(c, n + 1) == Trunc(c * n as real + c)
  {
    assert c * (n + 1) as real == c * n as real + c;
  }

  lemma FloorsAround(p: real, c: real, d: int)
    requires c > 0.0 && 0.0 <= p <= d as real < p + c
    ensures d as real - c - 1.0 < Trunc(p) as real && Trunc(p) <= d <= Trunc(p + c)
  {
  }

  lemma Reciprocal(c: real, inv: real, d: real)
    requires c > 0.0 && inv == 1.0 / c && d >= 0.0
    ensures c * (inv * d) == d && inv * d >= 0.0
  {
    assert c * inv == 1.0;
    assert c * (inv * d) == (c * inv) * d;
    assert inv > 0.0;
  }

  lemma Bracket(c: real, x: real, y: real, d: real)
    requires c > 0.0 && 0.0 <= y <= x < y + 1.0 && c * x == d
    ensures 0.0 <= c * y <= d < c * y + c
  {
    ShareOf(c, x - y, c * y, d);
    assert c * (x - y) == c * x - c * y;
    ProductSign(c, y);
  }

  lemma ShareOf(c: real, g: real, p: real, d: real)
    requires c > 0.0 && 0.0 <= g < 1.0 && c * g == d - p
    ensures p <= d < p + c
  {
    ProductSign(c, 1.0 - g);
    ProductSign(c, g);
    assert c * (1.0 - g) == c - c * g;
  }

  lemma ProductSign(c: real, y: real)
    requires c > 0.0 && y >= 0.0
    ensures c * y >= 0.0 && (y > 0.0 ==> c * y > 0.0)
  {
  }

  function Speed(f: Ft): real {
    if f.rateSet then f.rate else 1.0
  }

  /** For a clock that does not tick: the real deadline for a faked deadline after the base is the last instant at which
      the clock does not show more than it; what the clock shows then falls short by less than one step of the clock and
      the nanosecond that truncation takes. Before the base it is the first instant at which the clock does not show
      less. */
  lemma DeadlineInverts(f: Ft, id: ClockId, req: Ts)
    requires Normal(f.base, NS) && Normal(OfFamily(f.start, id), NS) && Normal(req, NS)
    requires f.rateSet ==> f.rate > 0.0
    ensures var D := Ns(Deadline(f, id, req));
            && Normal(Deadline(f, id, req), NS)
            && (Ns(req) >= Ns(f.base) ==>
                  && FakedNs(f, id, D) <= Ns(req) <= FakedNs(f, id, D + 1)
                  && Ns(req) as real - Speed(f) - 1.0 < FakedNs(f, id, D) as real)
            && (Ns(req) <= Ns(f.base) ==>
                  && FakedNs(f, id, D - 1) <= Ns(req) <= FakedNs(f, id, D)
                  && FakedNs(f, id, D) as real < Ns(req) as real + Speed(f) + 1.0)
  {
    var n := DeadlineNs(f, id, req);
    ClockAt(f, id, n);
    ClockAt(f, id, n + 1);
    ClockAt(f, id, n - 1);
    SpanInverts(f, Ns(req) - Ns(f.base), n);
  }

  /** The real deadline lies n nanoseconds after the start of its clock. */
  lemma DeadlineNs(f: Ft, id: ClockId, req: Ts) returns (n: int)
    requires Normal(f.base, NS) && Normal(OfFamily(f.start, id), NS) && Normal(req, NS)
    requires f.rateSet ==> f.rate > 0.0
    ensures Normal(Deadline(f, id, req), NS) && Ns(Deadline(f, id, req)) == Ns(OfFamily(f.start, id)) + n
    ensures n == if f.rateSet then Scaled(1.0 / f.rate, Ns(req) - Ns(f.base)) else Ns(req) - Ns(f.base)
  {
    var d := Sub(req, f.base, NS);
    SubExact(req, f.base, NS);
    n := Ns(Shrunk(f, d));
    if f.rateSet {
      MulExact(d, 1.0 / f.rate, NS);
    }
    AddExact(OfFamily(f.start, id), Shrunk(f, d), NS);
  }

  lemma ClockAt(f: Ft, id: ClockId, n: int)
    ensures FakedNs(f, id, Ns(OfFamily(f.start, id)) + n) == Ns(f.base) + StretchedNs(f, n)
  {
  }

  lemma SpanInverts(f: Ft, d: int, n: int)
    requires f.rateSet ==> f.rate > 0.0
    requires n == if f.rateSet then Scaled(1.0 / f.rate, d) else d
    ensures d >= 0 ==> StretchedNs(f, n) <= d <= StretchedNs(f, n + 1)
                       && d as real - Speed(f) - 1.0 < StretchedNs(f, n) as real
    ensures d <= 0 ==> StretchedNs(f, n - 1) <= d <= StretchedNs(f, n)
                       && StretchedNs(f, n) as real < d as real + Speed(f) + 1.0
  {
    if f.rateSet {
      DeadlineSpan(f.rate, d, n);
    }
  }

  lemma DeadlineSpan(c: real, d: int, n: int)
    requires c > 0.0 && n == Scaled(1.0 / c, d)
    ensures d >= 0 ==> Scaled(c, n) <= d <= Scaled(c, n + 1) && d as real - c - 1.0 < Scaled(c, n) as real
    ensures d <= 0 ==> Scaled(c, n - 1) <= d <= Scaled(c, n) && Scaled(c, n) as real < d as real + c + 1.0
  {
    if d >= 0 {
      InverseScaling(c, d);
    }
    if d <= 0 {
      InverseScaling(c, -d);
      ScaledNegated(1.0 / c, d);
      ScaledNegated(c, n);
      ScaledNegated(c, n - 1);
    }
  }
}
