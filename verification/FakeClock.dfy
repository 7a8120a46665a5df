/** The fake clock: the statics of libfaketime that a FAKETIME specification of the form "+offset", "+offset xrate" or
    "+offset iincrement" sets, and that every reading uses. Times are timespecs; totals are nanoseconds. */
module FakeClock {
  import opened TimeOps
  import opened Text

  const NS := SEC_TO_NSEC

  /** One system clock per family: CLOCK_REALTIME, CLOCK_MONOTONIC, CLOCK_MONOTONIC_RAW, CLOCK_BOOTTIME. */
  datatype Clocks = Clocks(realtime: Ts, mon: Ts, monRaw: Ts, boot: Ts)

  datatype ClockId = Realtime | RealtimeCoarse | Monotonic | MonotonicCoarse | MonotonicRaw | Boottime | OtherClock

  const UNSET := Ts(0, -1)
  const UNSET_CLOCKS := Clocks(UNSET, UNSET, UNSET, UNSET)

  function OfFamily(c: Clocks, id: ClockId): Ts {
    match id
    case Monotonic => c.mon
    case MonotonicCoarse => c.mon
    case MonotonicRaw => c.monRaw
    case Boottime => c.boot
    case _ => c.realtime
  }

  /** Only the four exact clocks are remembered in the caches. */
  function Remember(c: Clocks, id: ClockId, t: Ts): Clocks {
    match id
    case Realtime => c.(realtime := t)
    case Monotonic => c.(mon := t)
    case MonotonicRaw => c.(monRaw := t)
    case Boottime => c.(boot := t)
    case _ => c
  }

  predicate NormalClocks(c: Clocks) {
    Normal(c.realtime, NS) && Normal(c.mon, NS) && Normal(c.monRaw, NS) && Normal(c.boot, NS)
  }

  /** The state a specification and the readings determine. */
  datatype Ft = Ft(base: Ts, start: Clocks, rate: real, rateSet: bool, inc: Ts, incSet: bool, saved: string,
                   seen: Clocks, shown: Clocks)

  /** Before the first specification is parsed. */
  function Unparsed(start: Clocks): Ft {
    Ft(UNSET, start, 1.0, false, UNSET, false, "", UNSET_CLOCKS, UNSET_CLOCKS)
  }

  // ---- parsing "+offset xrate" and "+offset iincrement" ---------------------------------------------------

  /** The offset in seconds, with the unit a letter may give it. */
  function OffsetOf(s: string): real {
    InUnit(Atof(s), s)
  }

  function InUnit(v: real, s: string): real {
    if 'm' in s then v * 60.0
    else if 'h' in s then v * 3600.0
    else if 'd' in s then v * 86400.0
    else if 'y' in s then v * 31536000.0
    else v
  }

  lemma PlainSeconds(v: real, s: string)
    requires 'm' !in s && 'h' !in s && 'd' !in s && 'y' !in s
    ensures InUnit(v, s) == v
  {
  }

  function ToTs(x: real): Ts {
    Ts(x.Floor, Trunc((x - x.Floor as real) * NS as real))
  }

  function After(s: string, letter: char): string
    requires letter in s
  {
    s[IndexOf(s, letter) + 1..]
  }

  function RateOf(s: string): real
    requires 'x' in s
  {
    Atof(After(s, 'x'))
  }

  /** An increment for every reading is looked for only where no rate is named. */
  predicate Ticks(s: string) {
    'x' !in s && 'i' in s
  }

  function IncrementOf(s: string): real
    requires Ticks(s)
  {
    Atof(After(s, 'i'))
  }

  /** A specification that begins with a sign and in which no number is an infinity or "nan". */
  predicate OffsetSpec(s: string) {
    && s != [] && (s[0] == '+' || s[0] == '-') && Finite(s)
    && ('x' in s ==> Finite(After(s, 'x'))) && (Ticks(s) ==> Finite(After(s, 'i')))
  }

  /** What parsing an offset specification does; `xreset` is the presence of FAKETIME_XRESET. */
  function Parsed(f: Ft, s: string, xreset: bool): Ft {
    if s == f.saved then f
    else
      var g := f.(base := Add(f.start.realtime, ToTs(OffsetOf(s)), NS), saved := s);
      if 'x' in s then
        var r := g.(rate := RateOf(s), rateSet := true);
        if xreset && f.seen.realtime.frac >= 0 then r.(base := f.shown.realtime, start := f.seen) else r
      else if Ticks(s) then g.(inc := ToTs(IncrementOf(s)), incSet := true)
      else g
  }

  // ---- reading --------------------------------------------------------------------------------------------

  /** A time span on the fake clock. */
  function Stretched(f: Ft, d: Ts): Ts {
    if f.rateSet then Mul(d, f.rate, NS) else d
  }

  function Faked(f: Ft, id: ClockId, t: Ts): Ts {
    Add(f.base, Stretched(f, Sub(t, OfFamily(f.start, id), NS)), NS)
  }

  /** The base and as many increments as ticks have been counted. */
  function TickTime(base: Ts, ticks: nat, inc: Ts): Ts {
    Add(base, Mul(inc, ticks as real, NS), NS)
  }

  /** What a reading of clock `id` gives at the system's time t and the tick count n: once an increment has been set
      the clock only ticks. */
  function Display(f: Ft, id: ClockId, t: Ts, n: nat): Ts {
    if f.incSet then TickTime(f.base, n, f.inc) else Faked(f, id, t)
  }

  function Noted(f: Ft, id: ClockId, t: Ts, n: nat): Ft {
    f.(seen := Remember(f.seen, id, t), shown := Remember(f.shown, id, Display(f, id, t, n)))
  }

  /** One call of fake_clock_gettime: the clock, the system's time, and, when the cached specification has expired,
      what the FAKETIME variable holds; and the ticks counted so far by all processes of the session. */
  datatype Reading = Reading(id: ClockId, t: Ts, expired: bool, env: string, ticks: nat)

  function Refreshed(f: Ft, r: Reading, xreset: bool): Ft {
    if r.expired then Parsed(f, r.env, xreset) else f
  }

  function Answer(f: Ft, r: Reading, xreset: bool): Ts {
    Display(Refreshed(f, r, xreset), r.id, r.t, r.ticks)
  }

  function Step(f: Ft, r: Reading, xreset: bool): Ft {
    Noted(Refreshed(f, r, xreset), r.id, r.t, r.ticks)
  }

  // ---- the same in nanoseconds ----------------------------------------------------------------------------

  function Ns(t: Ts): int {
    Total(t, NS)
  }

  function StretchedNs(f: Ft, d: int): int {
    if f.rateSet then Scaled(f.rate, d) else d
  }

  /** base + trunc(rate * (real - start)) */
  function FakedNs(f: Ft, id: ClockId, t: int): int {
    Ns(f.base) + StretchedNs(f, t - Ns(OfFamily(f.start, id)))
  }

  lemma FakedExact(f: Ft, id: ClockId, t: Ts)
    requires Normal(f.base, NS) && Normal(t, NS) && Normal(OfFamily(f.start, id), NS)
    ensures Normal(Faked(f, id, t), NS) && Ns(Faked(f, id, t)) == FakedNs(f, id, Ns(t))
  {
    var d := Sub(t, OfFamily(f.start, id), NS);
    SubExact(t, OfFamily(f.start, id), NS);
    MulExact(d, f.rate, NS);
    AddExact(f.base, Stretched(f, d), NS);
  }

  function DisplayNs(f: Ft, id: ClockId, t: int, n: nat): int {
    if f.incSet then Ns(f.base) + n * Ns(f.inc) else FakedNs(f, id, t)
  }

  lemma DisplayExact(f: Ft, id: ClockId, t: Ts, n: nat)
    requires Normal(f.base, NS) && Normal(t, NS) && Normal(OfFamily(f.start, id), NS)
    ensures Normal(Display(f, id, t, n), NS) && Ns(Display(f, id, t, n)) == DisplayNs(f, id, Ns(t), n)
  {
    if f.incSet {
      TickExact(f.base, n, f.inc);
    } else {
      FakedExact(f, id, t);
    }
  }

  lemma TickExact(base: Ts, ticks: nat, inc: Ts)
    requires Normal(base, NS)
    ensures Normal(TickTime(base, ticks, inc), NS) && Ns(TickTime(base, ticks, inc)) == Ns(base) + ticks * Ns(inc)
  {
    MulExact(inc, ticks as real, NS);
    WholeProduct(ticks, Ns(inc));
    AddExact(base, Mul(inc, ticks as real, NS), NS);
  }

  lemma WholeProduct(k: nat, n: int)
    ensures Scaled(k as real, n) == k * n
  {
    assert k as real * n as real == (k * n) as real;
  }

  lemma ToTsNormal(x: real)
    ensures Normal(ToTs(x), NS)
    ensures Ns(ToTs(x)) as real <= x * NS as real < (Ns(ToTs(x)) + 1) as real
  {
    var r := x - x.Floor as real;
    assert 0.0 <= r < 1.0;
    TruncBounds(r * NS as real);
  }

  // ---- absolute deadlines ---------------------------------------------------------------------------------

  /** A span of the fake clock taken back to real time. */
  function Shrunk(f: Ft, d: Ts): Ts
    requires f.rateSet ==> f.rate != 0.0
  {
    if f.rateSet then Mul(d, 1.0 / f.rate, NS) else d
  }

  /** The real instant at which clock `id` should show `req`. */
  function Deadline(f: Ft, id: ClockId, req: Ts): Ts
    requires f.rateSet ==> f.rate != 0.0
  {
    Add(OfFamily(f.start, id), Shrunk(f, Sub(req, f.base, NS)), NS)
  }

  // ---- the shared memory ----------------------------------------------------------------------------------

  datatype Shared = Shared(ticks: nat, fileIdx: nat, startTime: Clocks)

  /** ftpl_init: the first process of a session sets the common start time, the others take it. */
  function Settled(sh: Shared, system: Clocks): (Shared, Clocks) {
    if sh.startTime.realtime.frac == -1 then (sh.(startTime := system), system) else (sh, sh.startTime)
  }

  /** What all processes of one faketime session share under a semaphore. */
  class SharedMemory {
    var ticks: nat
    var fileIdx: nat
    var startTime: Clocks

    constructor ()
      ensures State() == Shared(0, 0, UNSET_CLOCKS)
    {
      ticks, fileIdx, startTime := 0, 0, UNSET_CLOCKS;
    }

    function State(): Shared
      reads this
    {
      Shared(ticks, fileIdx, startTime)
    }

    /** The part of ftpl_init that settles the start time. */
    method StartTime(system: Clocks) returns (start: Clocks)
      modifies this
      ensures (State(), start) == Settled(old(State()), system)
    {
      if startTime.realtime.frac == -1 {
        start := system;
        startTime := start;
      } else {
        start := startTime;
      }
    }

    /** next_time, for a process with this base. */
    method NextTime(base: Ts, tp: Timespec, ticklen: Timespec)
      modifies this, tp
      ensures tp.Value() == TickTime(base, old(ticks), old(ticklen.Value()))
      ensures State() == old(State()).(ticks := old(ticks) + 1)
    {
      var inc := new Timespec(UNSET);
      TimerMul(ticklen, ticks as real, inc, NS);
      var start := new Timespec(base);
      TimerAdd(start, inc, tp, NS);
      ticks := ticks + 1;
    }
  }

  // ---- the library's statics ------------------------------------------------------------------------------

  class FakeTime {
    var userFakedTime: Ts
    var starttime: Clocks
    var userRate: real
    var userRateSet: bool
    var userPerTickInc: Ts
    var userPerTickIncSet: bool
    var userFakedTimeSaved: string
    var timecache: Clocks
    var faketimecache: Clocks
    /** Caching of the specification itself. */
    var lastDataFetch: int
    var cacheExpired: bool
    var forceCacheExpiration: bool
    const cacheEnabled: bool
    const cacheDuration: int
    const xreset: bool
    const shared: SharedMemory

    /** ftpl_init, with FAKETIME set: parse the specification for the first time. `start` is the start time settled
        on, what the clocks show now or what another process has preset in shared memory. */
    constructor (start: Clocks, spec: string, cacheEnabled: bool, cacheDuration: int, xreset: bool,
                 shared: SharedMemory)
      requires NormalClocks(start) && OffsetSpec(spec)
      ensures this.cacheEnabled == cacheEnabled && this.cacheDuration == cacheDuration && this.xreset == xreset
      ensures this.shared == shared && State() == Parsed(Unparsed(start), spec, xreset)
    {
      userFakedTime, starttime, userRate, userRateSet, userFakedTimeSaved := UNSET, start, 1.0, false, "";
      userPerTickInc, userPerTickIncSet := UNSET, false;
      timecache, faketimecache := UNSET_CLOCKS, UNSET_CLOCKS;
      lastDataFetch, cacheExpired, forceCacheExpiration := 0, true, false;
      this.cacheEnabled, this.cacheDuration, this.xreset, this.shared := cacheEnabled, cacheDuration, xreset, shared;
      new;
      ParseFtString(spec);
    }

    function State(): Ft
      reads this
    {
      Ft(userFakedTime, starttime, userRate, userRateSet, userPerTickInc, userPerTickIncSet, userFakedTimeSaved,
         timecache, faketimecache)
    }

    method ParseOffset(s: string) returns (userOffset: Ts)
      ensures userOffset == ToTs(OffsetOf(s))
      ensures 'm' in s ==> userOffset == ToTs(Atof(s) * 60.0)
      ensures 'm' !in s && 'h' in s ==> userOffset == ToTs(Atof(s) * 3600.0)
      ensures 'm' !in s && 'h' !in s && 'd' in s ==> userOffset == ToTs(Atof(s) * 86400.0)
      ensures 'm' !in s && 'h' !in s && 'd' !in s && 'y' in s ==> userOffset == ToTs(Atof(s) * 31536000.0)
    {
      var fracOffset := Atof(s);
      if 'm' in s {
        fracOffset := fracOffset * 60.0;
      } else if 'h' in s {
        fracOffset := fracOffset * 3600.0;
      } else if 'd' in s {
        fracOffset := fracOffset * 86400.0;
      } else if 'y' in s {
        fracOffset := fracOffset * 31536000.0;
      }
      var sec := fracOffset.Floor;
      userOffset := Ts(sec, Trunc((fracOffset - sec as real) * NS as real));
    }

    /** The rate, and under FAKETIME_XRESET the restart from the last pair of times seen and shown; or else the
        increment of every reading. */
    method ParseModifiers(s: string)
      modifies `userFakedTime, `starttime, `userRate, `userRateSet, `userPerTickInc, `userPerTickIncSet
      ensures 'x' in s ==>
                var r := old(State()).(rate := RateOf(s), rateSet := true);
                State() == if xreset && timecache.realtime.frac >= 0
                        then r.(base := faketimecache.realtime, start := timecache) else r
      ensures Ticks(s) ==> State() == old(State()).(inc := ToTs(IncrementOf(s)), incSet := true)
      ensures 'x' !in s && 'i' !in s ==> State() == old(State())
    {
      if 'x' in s {
        userRate := Atof(s[IndexOf(s, 'x') + 1..]);
        userRateSet := true;
        if xreset {
          if timecache.realtime.frac >= 0 {
            userFakedTime := faketimecache.realtime;
            starttime := timecache;
          }
        }
      } else if 'i' in s {
        var tickInc := Atof(s[IndexOf(s, 'i') + 1..]);
        var sec := tickInc.Floor;
        userPerTickInc := Ts(sec, Trunc((tickInc - sec as real) * NS as real));
        userPerTickIncSet := true;
      }
    }

    /** parse_ft_string, for a specification that begins with a sign. */
    method ParseFtString(s: string)
      requires OffsetSpec(s)
      modifies `userFakedTime, `starttime, `userRate, `userRateSet, `userPerTickInc, `userPerTickIncSet,
               `userFakedTimeSaved
      ensures State() == Parsed(old(State()), s, xreset)
    {
      if s == userFakedTimeSaved {
        return;
      }
      var userOffset := ParseOffset(s);
      userFakedTime := Add(starttime.realtime, userOffset, NS);
      ParseModifiers(s);
      userFakedTimeSaved := s;
    }

    /** fake_clock_gettime: `tp` holds the system clock's time and receives the faked one; `now` is the real time in
        seconds and `env` what the FAKETIME variable holds at this moment. */
    method FakeClockGettime(id: ClockId, tp: Timespec, now: int, env: string)
      requires OffsetSpec(env)
      modifies this, shared, tp
      ensures var r := Reading(id, old(tp.Value()), cacheExpired, env, old(shared.ticks));
              tp.Value() == Answer(old(State()), r, xreset) && State() == Step(old(State()), r, xreset)
      ensures shared.State() == old(shared.State()).(ticks := old(shared.ticks) + if userPerTickIncSet then 1 else 0)
      ensures !cacheEnabled || old(forceCacheExpiration) ==> cacheExpired
      ensures cacheEnabled && !old(forceCacheExpiration) && old(lastDataFetch) > 0 ==>
                (cacheExpired <==> now - old(lastDataFetch) > cacheDuration)
      ensures cacheEnabled && !old(forceCacheExpiration) && old(lastDataFetch) <= 0 ==>
              cacheExpired == old(cacheExpired)
      ensures lastDataFetch == if cacheExpired then now else old(lastDataFetch)
    {
      Refetch(now, env);
      FakeAndCache(id, tp);
    }

    /** Parse the specification again if the cached one has expired. */
    method Refetch(now: int, env: string)
      requires OffsetSpec(env)
      modifies this
      ensures State() == if cacheExpired then Parsed(old(State()), env, xreset) else old(State())
      ensures !cacheEnabled || old(forceCacheExpiration) ==> cacheExpired
      ensures cacheEnabled && !old(forceCacheExpiration) && old(lastDataFetch) > 0 ==>
                (cacheExpired <==> now - old(lastDataFetch) > cacheDuration)
      ensures cacheEnabled && !old(forceCacheExpiration) && old(lastDataFetch) <= 0 ==>
                cacheExpired == old(cacheExpired)
      ensures lastDataFetch == if cacheExpired then now else old(lastDataFetch)
    {
      CheckCache(now);
      if cacheExpired {
        lastDataFetch := now;
        ParseFtString(env);
      }
    }

    /** Whether the specification must be fetched again. */
    method CheckCache(now: int)
      modifies `cacheExpired, `forceCacheExpiration
      ensures !cacheEnabled || old(forceCacheExpiration) ==> cacheExpired
      ensures cacheEnabled && !old(forceCacheExpiration) && lastDataFetch > 0 ==>
                (cacheExpired <==> now - lastDataFetch > cacheDuration)
      ensures cacheEnabled && !old(forceCacheExpiration) && lastDataFetch <= 0 ==> cacheExpired == old(cacheExpired)
      ensures !forceCacheExpiration
    {
      if lastDataFetch > 0 {
        cacheExpired := now - lastDataFetch > cacheDuration;
      }
      if !cacheEnabled {
        cacheExpired := true;
      }
      if forceCacheExpiration {
        cacheExpired := true;
        forceCacheExpiration := false;
      }
    }

    method FakeAndCache(id: ClockId, tp: Timespec)
      modifies `timecache, `faketimecache, shared, tp
      ensures tp.Value() == Display(old(State()), id, old(tp.Value()), old(shared.ticks))
      ensures State() == Noted(old(State()), id, old(tp.Value()), old(shared.ticks))
      ensures shared.State() == old(shared.State()).(ticks := old(shared.ticks) + if userPerTickIncSet then 1 else 0)
    {
      var saved := tp.Value();
      StartAt(id, tp);
      Cache(id, saved, tp.Value());
    }

    /** The FT_START_AT branch: one more tick, or the time passed. */
    method StartAt(id: ClockId, tp: Timespec)
      modifies shared, tp
      ensures tp.Value() == Display(State(), id, old(tp.Value()), old(shared.ticks))
      ensures shared.State() == old(shared.State()).(ticks := old(shared.ticks) + if userPerTickIncSet then 1 else 0)
    {
      if userPerTickIncSet {
        var ticklen := new Timespec(userPerTickInc);
        shared.NextTime(userFakedTime, tp, ticklen);
      } else {
        Fake(id, tp);
      }
    }

    /** The time since the start of this clock, stretched, added to the base. */
    method Fake(id: ClockId, tp: Timespec)
      modifies tp
      ensures tp.Value() == Faked(State(), id, old(tp.Value()))
      ensures var start := if id.Monotonic? || id.MonotonicCoarse? then starttime.mon
                           else if id.MonotonicRaw? then starttime.monRaw
                           else if id.Boottime? then starttime.boot else starttime.realtime;
              tp.Value() == Add(userFakedTime, Stretched(State(), Sub(old(tp.Value()), start, NS)), NS)
    {
      var start := new Timespec(OfFamily(starttime, id));
      var tdiff := new Timespec(UNSET);
      TimerSub(tp, start, tdiff, NS);
      if userRateSet {
        TimerMul(tdiff, userRate, tdiff, NS);
      }
      var base := new Timespec(userFakedTime);
      TimerAdd(base, tdiff, tp, NS);
    }

    /** Keep the most recent real and faked time of each exact clock. */
    method Cache(id: ClockId, seen: Ts, shown: Ts)
      modifies `timecache, `faketimecache
      ensures timecache == Remember(old(timecache), id, seen)
              && faketimecache == Remember(old(faketimecache), id, shown)
      ensures timecache.realtime == (if id.Realtime? then seen else old(timecache).realtime)
              && faketimecache.realtime == (if id.Realtime? then shown else old(faketimecache).realtime)
      ensures timecache.mon == (if id.Monotonic? then seen else old(timecache).mon)
              && faketimecache.mon == (if id.Monotonic? then shown else old(faketimecache).mon)
      ensures timecache.monRaw == (if id.MonotonicRaw? then seen else old(timecache).monRaw)
              && faketimecache.monRaw == (if id.MonotonicRaw? then shown else old(faketimecache).monRaw)
      ensures timecache.boot == (if id.Boottime? then seen else old(timecache).boot)
              && faketimecache.boot == (if id.Boottime? then shown else old(faketimecache).boot)
    {
      match id {
        case Realtime =>
          timecache := timecache.(realtime := seen);
          faketimecache := faketimecache.(realtime := shown);
        case Monotonic =>
          timecache := timecache.(mon := seen);
          faketimecache := faketimecache.(mon := shown);
        case MonotonicRaw =>
          timecache := timecache.(monRaw := seen);
          faketimecache := faketimecache.(monRaw := shown);
        case Boottime =>
          timecache := timecache.(boot := seen);
          faketimecache := faketimecache.(boot := shown);
        case _ =>
      }
    }

    /** The absolute branches divide by the rate. */
    predicate Divisible()
      reads this
    {
      userRateSet ==> userRate != 0.0
    }

    /** clock_nanosleep with TIMER_ABSTIME: the real deadline handed to the system. */
    method NanosleepDeadline(id: ClockId, req: Timespec, realReq: Timespec)
      requires Divisible() && req != realReq
      modifies realReq
      ensures realReq.Value() == if id.Realtime? || id.Monotonic? then Deadline(State(), id, req.Value())
              else req.Value()
      ensures id.Realtime? || id.Monotonic? ==>
                realReq.Value() == Add(if id.Monotonic? then starttime.mon else starttime.realtime,
                                       Shrunk(State(), Sub(req.Value(), userFakedTime, NS)), NS)
    {
      var tdiff := SinceStart(req);
      if id == Realtime {
        var start := new Timespec(starttime.realtime);
        TimerAdd(start, tdiff, realReq, NS);
      } else if id == Monotonic {
        var start := new Timespec(starttime.mon);
        TimerAdd(start, tdiff, realReq, NS);
      } else {
        realReq.Set(req.Value());
      }
    }

    /** timer_settime with an absolute it_value: a zero value disarms the timer and is passed on. */
    method TimerDeadline(value: Timespec, realValue: Timespec)
      requires Divisible() && value != realValue
      modifies realValue
      ensures realValue.Value() == if value.Value() == Ts(0, 0) then Ts(0, 0)
              else Deadline(State(), Realtime, value.Value())
    {
      if value.sec != 0 || value.frac != 0 {
        var tdiff := SinceStart(value);
        var start := new Timespec(starttime.realtime);
        TimerAdd(start, tdiff, realValue, NS);
      } else {
        realValue.Set(value.Value());
      }
    }

    /** From a faked time to the real time passed since the start when the clock shows it. */
    method SinceStart(faked: Timespec) returns (tdiff: Timespec)
      requires Divisible()
      ensures fresh(tdiff) && tdiff.Value() == Shrunk(State(), Sub(faked.Value(), userFakedTime, NS))
    {
      var base := new Timespec(userFakedTime);
      tdiff := new Timespec(UNSET);
      TimerSub(faked, base, tdiff, NS);
      if userRateSet {
        TimerMul(tdiff, 1.0 / userRate, tdiff, NS);
      }
    }
  }
}
