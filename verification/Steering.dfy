/** How a daemon steers its own clock: it rewrites the offset in its FAKETIME variable, which the fake clock parses
    again at its next reading. */
module Steering {
  import opened TimeOps
  import opened Text
  import opened FakeClock
  import Sync = TempoSync
  import Wire = TempoMessenger
  import Node = TempoNode

  // ---- rewriting the variable -----------------------------------------------------------------------------

  datatype Outcome = ValueError | Rewritten(text: string)

  function Chop(s: string): string {
    if s == "" then "" else s[..|s| - 1]
  }

  /** What float() accepts, of the forms with a sign, digits, a point and an exponent. */
  predicate IsNumber(s: string) {
    s != "" && Scan(s).length == |s|
  }

  function FloatOf(s: string): real
    requires IsNumber(s)
  {
    Scan(s).value
  }

  function RoundThousandths(x: real): real {
    Sync.RoundHalfEven(1000.0 * x) as real / 1000.0
  }

  /** A number printed with its sign and two decimals; a small negative number prints as "-0.00". */
  function FormatSeconds(x: real): string {
    var a := Sync.Hundredths(if x < 0.0 then -x else x);
    [if x < 0.0 then '-' else '+'] + (Digits(a / 100) + "." + CentsOf(a))
  }

  /** The variable after an adjustment: the first of its two parts is the offset with its unit. */
  function Fixed(env: string, adj: real): Outcome {
    var parts := Split(env, ' ');
    if |parts| != 2 || !IsNumber(Chop(parts[0])) then ValueError
    else Rewritten(FormatSeconds(FloatOf(Chop(parts[0])) + RoundThousandths(adj)) + "s " + parts[1])
  }

  /** The entry of os.environ that the daemon owns. */
  class Environment {
    var faketime: string

    /** The drift drawn at start, as it prints. */
    constructor (drift: string)
      ensures faketime == "+0.00s x" + drift
    {
      faketime := "+0.00s x" + drift;
    }

    /** fix_my_clock; `ok` is false when a ValueError is raised. */
    method FixMyClock(adjSeconds: real) returns (ok: bool)
      modifies this
      ensures ok <==> Fixed(old(faketime), adjSeconds).Rewritten?
      ensures faketime == if ok then Fixed(old(faketime), adjSeconds).text else old(faketime)
    {
      var adj := RoundThousandths(adjSeconds);
      var parts := Split(faketime, ' ');
      if |parts| != 2 {
        return false;
      }
      var currentOffsetAsStr, currentDrift := parts[0], parts[1];
      var digits := Chop(currentOffsetAsStr);
      if !IsNumber(digits) {
        return false;
      }
      var currentOffset := FloatOf(digits) + adj;
      faketime := FormatSeconds(currentOffset) + "s " + currentDrift;
      ok := true;
    }
  }

  // ---- what the rewriting means ---------------------------------------------------------------------------

  /** The variable as the daemon keeps it: an offset of h hundredths of a second and a drift. */
  function Spec(h: int, drift: string): string {
    FormatHundredths(h) + "s " + drift
  }

  lemma FormatExact(h: int)
    ensures FormatSeconds(Sync.Seconds(h)) == FormatHundredths(h)
  {
    Sync.RoundTwice(h);
    Sync.RoundTwice(-h);
    assert Sync.Seconds(-h) == -Sync.Seconds(h);
  }

  /** The characters of a printed offset. */
  predicate Plain(c: char) {
    IsDigit(c) || c == '+' || c == '-' || c == '.'
  }

  lemma PlainOffset(h: int)
    ensures forall k | 0 <= k < |FormatHundredths(h)| :: Plain(FormatHundredths(h)[k])
    ensures IsDigit(FormatHundredths(h)[1])
  {
    var a: nat := if h < 0 then -h else h;
    Cents(a);
    assert AllDigits(Digits(a / 100)) && Digits(a / 100) != [];
  }

  lemma PartsOfSpec(h: int, drift: string)
    requires ' ' !in drift
    ensures Split(Spec(h, drift), ' ') == [FormatHundredths(h) + "s", drift]
  {
    var parts := [FormatHundredths(h) + "s", drift];
    PlainOffset(h);
    assert ' ' !in parts[0];
    assert parts[1..] == [drift];
    assert Join(parts, ' ') == parts[0] + [' '] + drift;
    assert Spec(h, drift) == Join(parts, ' ');
    SplitJoin(parts, ' ');
  }

  lemma OffsetReads(h: int)
    ensures IsNumber(FormatHundredths(h)) && FloatOf(FormatHundredths(h)) == Sync.Seconds(h)
  {
    FormatRoundTrip(h, "");
    assert FormatHundredths(h) + "" == FormatHundredths(h);
  }

  lemma RoundThousandthsExact(a: int)
    ensures RoundThousandths(Sync.Seconds(a)) == Sync.Seconds(a)
  {
    assert 1000.0 * Sync.Seconds(a) == (10 * a) as real;
  }

  /** The variable can be rewritten exactly when it is two parts with one blank between them and the first is a number
      and one more character; anything else raises a ValueError and leaves it as it is. */
  lemma FixableExactly(env: string, adj: real)
    ensures Fixed(env, adj).Rewritten? <==>
            exists o: string, d: string ::
              env == o + " " + d && ' ' !in o && ' ' !in d && o != "" && IsNumber(o[..|o| - 1])
  {
    var parts := Split(env, ' ');
    JoinSplit(env, ' ');
    if Fixed(env, adj).Rewritten? {
      assert parts == [parts[0], parts[1]] && parts[1..] == [parts[1]];
      assert env == parts[0] + " " + parts[1];
    }
    forall o: string, d: string | env == o + " " + d && ' ' !in o && ' ' !in d && o != "" && IsNumber(o[..|o| - 1])
      ensures Fixed(env, adj).Rewritten?
    {
      TwoParts(env, o, d);
    }
  }

  /** Of an adjustment only the nearest thousandth of a second counts. */
  lemma ThousandthsCount(env: string, adj: real, n: int)
    requires -0.5 < n as real - 1000.0 * adj < 0.5
    ensures Fixed(env, adj) == Fixed(env, n as real / 1000.0)
  {
    NearestThousandth(adj, n);
    SameRounding(env, adj, n as real / 1000.0);
  }

  lemma SameRounding(env: string, a: real, b: real)
    requires RoundThousandths(a) == RoundThousandths(b)
    ensures Fixed(env, a) == Fixed(env, b)
  {
  }

  lemma NearestThousandth(adj: real, n: int)
    requires -0.5 < n as real - 1000.0 * adj < 0.5
    ensures RoundThousandths(adj) == n as real / 1000.0 == RoundThousandths(n as real / 1000.0)
  {
    assert Sync.RoundHalfEven(1000.0 * adj) == n;
    assert 1000.0 * (n as real / 1000.0) == n as real;
  }

  lemma TwoParts(env: string, o: string, d: string)
    requires env == o + " " + d && ' ' !in o && ' ' !in d
    ensures Split(env, ' ') == [o, d]
  {
    assert [o, d][1..] == [d];
    assert Join([o, d], ' ') == o + [' '] + d;
    SplitJoin([o, d], ' ');
  }

  lemma FixedParts(env: string, offset: string, drift: string, adj: real)
    requires Split(env, ' ') == [offset, drift] && IsNumber(Chop(offset))
    ensures Fixed(env, adj) == Rewritten(FormatSeconds(FloatOf(Chop(offset)) + RoundThousandths(adj)) + "s " + drift)
  {
  }

  lemma FixedSpec(h: int, adj: real, drift: string, x: real, text: string)
    requires ' ' !in drift && x == Sync.Seconds(h) + RoundThousandths(adj) && FormatSeconds(x) + "s " + drift == text
    ensures Fixed(Spec(h, drift), adj) == Rewritten(text)
  {
    PartsOfSpec(h, drift);
    Chopped(FormatHundredths(h));
    OffsetReads(h);
    FixedParts(Spec(h, drift), FormatHundredths(h) + "s", drift, adj);
  }

  /** An adjustment by a whole number of hundredths, which is what every call passes, shifts the printed offset by
      exactly that many hundredths and leaves the drift alone. */
  lemma FixShifts(h: int, a: int, k: int, drift: string)
    requires ' ' !in drift && k == h + a
    ensures Fixed(Spec(h, drift), Sync.Seconds(a)) == Rewritten(Spec(k, drift))
  {
    RoundThousandthsExact(a);
    SecondsAdd(h, a);
    Reprinted(Sync.Seconds(k), k, drift);
    FixedSpec(h, Sync.Seconds(a), drift, Sync.Seconds(k), Spec(k, drift));
  }

  lemma Reprinted(x: real, k: int, drift: string)
    requires x == Sync.Seconds(k)
    ensures FormatSeconds(x) + "s " + drift == Spec(k, drift)
  {
    FormatExact(k);
  }

  lemma Chopped(o: string)
    ensures Chop(o + "s") == o
  {
  }

  lemma SecondsAdd(h: int, a: int)
    ensures Sync.Seconds(h) + Sync.Seconds(a) == Sync.Seconds(h + a)
  {
  }

  // ---- the fake clock under steering ----------------------------------------------------------------------

  /** The drift as the daemon writes it: a letter x and a decimal number. */
  predicate DriftText(d: string) {
    d != [] && d[0] == 'x' && forall k | 1 <= k < |d| :: IsDigit(d[k]) || d[k] == '.'
  }

  function DriftRate(d: string): real {
    if d == [] then 1.0 else Atof(d[1..])
  }

  lemma LettersOfSpec(o: string, drift: string)
    requires DriftText(drift) && forall k | 0 <= k < |o| :: Plain(o[k])
    ensures var s := o + "s " + drift;
            && 'm' !in s && 'h' !in s && 'd' !in s && 'y' !in s
            && 'x' in s && After(s, 'x') == drift[1..]
  {
    NoLetter(o, drift, 'm');
    NoLetter(o, drift, 'h');
    NoLetter(o, drift, 'd');
    NoLetter(o, drift, 'y');
    AfterX(o + "s ", drift[1..]);
    assert drift == ['x'] + drift[1..];
    assert (o + "s ") + drift == (o + "s ") + ['x'] + drift[1..];
  }

  lemma NoLetter(o: string, drift: string, c: char)
    requires DriftText(drift) && (forall k | 0 <= k < |o| :: Plain(o[k]))
    requires !Plain(c) && c != 's' && c != ' ' && c != 'x'
    ensures c !in o + "s " + drift
  {
    assert c !in o && c !in drift;
  }

  lemma AfterX(t: string, rest: string)
    requires 'x' !in t
    ensures var s := t + ['x'] + rest;
            'x' in s && After(s, 'x') == rest
  {
    FirstSeparator(t, 'x', rest);
    assert (t + ['x'] + rest)[|t|] == 'x';
  }

  lemma SpecValue(h: int, drift: string)
    ensures Atof(Spec(h, drift)) == Sync.Seconds(h)
  {
    FormatRoundTrip(h, "s " + drift);
    assert Spec(h, drift) == FormatHundredths(h) + ("s " + drift);
    DecimalSpec(h, drift);
    AtofIsScan(Spec(h, drift));
  }

  /** The offset is neither hexadecimal nor anything but a number. */
  lemma DecimalSpec(h: int, drift: string)
    ensures var s := Spec(h, drift);
            && s != [] && (s[0] == '+' || s[0] == '-') && !IsBlank(s[0])
            && !HexPrefix(SkipSign(s)) && Finite(s)
  {
    var s, o := Spec(h, drift), FormatHundredths(h);
    PlainOffset(h);
    assert s[0] == o[0] && s[1] == o[1] && s[2] == o[2];
    assert SkipBlanks(s) == s && SkipSign(s) == s[1..];
    assert Plain(s[1]) && Plain(s[2]) && IsDigit(s[1]);
    assert Lower(s[1]) == s[1] && Lower(s[2]) == s[2];
  }

  /** So the daemon's text is a specification as the library's parser wants it. */
  lemma SpecIsOffset(h: int, drift: string)
    requires DriftText(drift)
    ensures OffsetSpec(Spec(h, drift))
  {
    DecimalSpec(h, drift);
    SpecMeaning(h, drift);
    PlainOffset(h);
    LettersOfSpec(FormatHundredths(h), drift);
    DriftFinite(drift[1..]);
  }

  lemma DriftFinite(d: string)
    requires forall k | 0 <= k < |d| :: IsDigit(d[k]) || d[k] == '.'
    ensures Finite(d)
  {
    if d != [] {
      assert Lower(d[0]) == d[0];
    }
  }

  lemma SpecMeaning(h: int, drift: string)
    requires DriftText(drift)
    ensures OffsetOf(Spec(h, drift)) == Sync.Seconds(h)
    ensures 'x' in Spec(h, drift) && RateOf(Spec(h, drift)) == DriftRate(drift)
  {
    PlainOffset(h);
    LettersOfSpec(FormatHundredths(h), drift);
    SpecValue(h, drift);
    PlainSeconds(Atof(Spec(h, drift)), Spec(h, drift));
    RateAfterX(Spec(h, drift), drift);
  }

  lemma RateAfterX(s: string, drift: string)
    requires drift != [] && 'x' in s && After(s, 'x') == drift[1..]
    ensures RateOf(s) == DriftRate(drift)
  {
  }

  lemma SpecInjective(g: int, h: int, drift: string)
    requires Spec(g, drift) == Spec(h, drift)
    ensures g == h
  {
    SpecValue(g, drift);
    SpecValue(h, drift);
  }

  const NS_PER_HUNDREDTH := 10000000

  lemma HundredthsInNs(h: int)
    ensures Normal(ToTs(Sync.Seconds(h)), NS) && Ns(ToTs(Sync.Seconds(h))) == h * NS_PER_HUNDREDTH
  {
    ToTsNormal(Sync.Seconds(h));
    assert Sync.Seconds(h) * NS as real == (h * NS_PER_HUNDREDTH) as real;
  }

  /** The clock stands h hundredths ahead of the real start and runs at rate c. */
  predicate Aligned(f: Ft, h: int, c: real) {
    && Normal(f.start.realtime, NS)
    && f.base == Add(f.start.realtime, ToTs(Sync.Seconds(h)), NS)
    && f.rateSet && f.rate == c && !f.incSet
  }

  lemma AlignedBase(f: Ft, h: int, c: real)
    requires Aligned(f, h, c)
    ensures Normal(f.base, NS) && Ns(f.base) == Ns(f.start.realtime) + h * NS_PER_HUNDREDTH
  {
    HundredthsInNs(h);
    AddExact(f.start.realtime, ToTs(Sync.Seconds(h)), NS);
  }

  lemma SameLine(f: Ft, g: Ft, id: ClockId, t: int)
    requires g.start == f.start && f.rateSet && g.rateSet && g.rate == f.rate
    ensures FakedNs(g, id, t) - FakedNs(f, id, t) == Ns(g.base) - Ns(f.base)
  {
  }

  lemma AlignedShift(f: Ft, g: Ft, h: int, k: int, c: real, id: ClockId, t: int)
    requires Aligned(f, h, c) && Aligned(g, k, c) && g.start == f.start
    ensures FakedNs(g, id, t) == FakedNs(f, id, t) + (k - h) * NS_PER_HUNDREDTH
  {
    AlignedBase(f, h, c);
    AlignedBase(g, k, c);
    SameLine(f, g, id, t);
  }

  /** The clock has last parsed an offset of h hundredths and this drift. */
  predicate Steered(f: Ft, h: int, drift: string) {
    f.saved == Spec(h, drift) && Aligned(f, h, DriftRate(drift))
  }

  lemma ParsedSpec(f: Ft, s: string, h: int, c: real)
    requires Normal(f.start.realtime, NS) && s != f.saved && !f.incSet
    requires OffsetOf(s) == Sync.Seconds(h) && 'x' in s && RateOf(s) == c
    ensures var g := Parsed(f, s, false);
            g.saved == s && g.start == f.start && Aligned(g, h, c)
  {
  }

  /** At start, and at any reading with another such specification in the variable, parsing steers the clock. */
  lemma ParsingSteers(f: Ft, h: int, drift: string)
    requires DriftText(drift) && Normal(f.start.realtime, NS) && !f.incSet
    requires f.saved == Spec(h, drift) ==> Aligned(f, h, DriftRate(drift))
    ensures Steered(Parsed(f, Spec(h, drift), false), h, drift)
    ensures Parsed(f, Spec(h, drift), false).start == f.start
  {
    SpecMeaning(h, drift);
    if f.saved != Spec(h, drift) {
      ParsedSpec(f, Spec(h, drift), h, DriftRate(drift));
    }
  }

  /** Re-parsing after the offset has changed by `a` hundredths shifts the faked time of every clock at every real
      instant by exactly that, and nothing else. */
  lemma ShiftedEverywhere(f: Ft, h: int, a: int, k: int, drift: string, id: ClockId, t: int)
    requires DriftText(drift) && Steered(f, h, drift) && k == h + a
    ensures var g := Parsed(f, Spec(k, drift), false);
            Steered(g, k, drift) && g.start == f.start && FakedNs(g, id, t) == FakedNs(f, id, t) + a * NS_PER_HUNDREDTH
  {
    if f.saved == Spec(k, drift) {
      SpecInjective(h, k, drift);
    }
    ParsingSteers(f, k, drift);
    SteeredShift(f, Parsed(f, Spec(k, drift), false), h, a, k, drift, id, t);
  }

  lemma SteeredShift(f: Ft, g: Ft, h: int, a: int, k: int, drift: string, id: ClockId, t: int)
    requires Steered(f, h, drift) && Steered(g, k, drift) && g.start == f.start && k == h + a
    ensures FakedNs(g, id, t) == FakedNs(f, id, t) + a * NS_PER_HUNDREDTH
  {
    AlignedShift(f, g, h, k, DriftRate(drift), id, t);
  }

  // ---- the leader's adjustment on its way to a follower ---------------------------------------------------

  /** The message that tells a follower to adjust its clock. */
  function Adjustment(ip: string, x: real, shown: string): Wire.Data {
    map["ip_address" := Wire.Str(ip), "adj_seconds" := Wire.Fraction(x, shown)]
  }

  /** The follower can read the adjustment as a number exactly when it is not zero; a zero arrives as the empty text,
      which float() rejects. */
  lemma AdjustmentArrives(ip: string, x: real, shown: string)
    requires '|' !in ip && '|' !in shown && IsNumber(shown)
    ensures var p := Wire.Parse(Wire.Format(Adjustment(ip, x, shown), Node.SYNCREQ));
            p.Parsed? && p.signal == Node.SYNCREQ && "adj_seconds" in p.fields
            && (IsNumber(p.fields["adj_seconds"]) <==> x != 0.0)
            && (x != 0.0 ==> p.fields["adj_seconds"] == shown)
  {
    AdjustmentFields(ip, x, shown);
    Wire.RoundTrip(Adjustment(ip, x, shown), Node.SYNCREQ);
    AdjustmentField(ip, x, shown, Wire.Parse(Wire.Format(Adjustment(ip, x, shown), Node.SYNCREQ)));
  }

  /** No field of the message contains a bar. */
  lemma AdjustmentFields(ip: string, x: real, shown: string)
    requires '|' !in ip && '|' !in shown
    ensures Wire.BarFree(Wire.Fields(Adjustment(ip, x, shown), Node.SYNCREQ))
  {
    var data := Adjustment(ip, x, shown);
    Wire.SignalField(data, Node.SYNCREQ);
    forall k | 1 <= k < |Wire.KEYS|
      ensures '|' !in Wire.Fields(data, Node.SYNCREQ)[k]
    {
      Wire.OtherFields(data, Node.SYNCREQ, k);
    }
  }

  lemma AdjustmentField(ip: string, x: real, shown: string, p: Wire.Parsed)
    requires IsNumber(shown) && Wire.Delivers(p, Adjustment(ip, x, shown), Node.SYNCREQ)
    ensures p.Parsed? && p.signal == Node.SYNCREQ && "adj_seconds" in p.fields
    ensures p.fields["adj_seconds"] == if x == 0.0 then "" else shown
    ensures IsNumber(p.fields["adj_seconds"]) <==> x != 0.0
  {
    assert Wire.KEYS[4] == "adj_seconds";
  }

  // ---- whole runs of fixes and readings -------------------------------------------------------------------

  /** With caching off every reading parses the variable as it then is. */
  datatype Act = Fix(hundredths: int) | Read(id: ClockId, t: Ts)

  function SumOf(acts: seq<Act>): int {
    if acts == [] then 0 else SumOf(acts[..|acts| - 1]) + Shift(acts[|acts| - 1])
  }

  function Shift(a: Act): int {
    if a.Fix? then a.hundredths else 0
  }

  datatype Host = Host(env: string, clock: Ft)

  /** A reading of clock `id` at t. The daemon's text sets no increment, so how many ticks other clocks of the session
      have counted is of no account. */
  function Now(s: Host, id: ClockId, t: Ts): Reading {
    Reading(id, t, true, s.env, 0)
  }

  function Do(s: Host, a: Act): Host {
    match a
    case Fix(h) =>
      var r := Fixed(s.env, Sync.Seconds(h));
      if r.Rewritten? then s.(env := r.text) else s
    case Read(id, t) => s.(clock := Step(s.clock, Now(s, id, t), false))
  }

  function RunActs(s: Host, acts: seq<Act>): Host {
    if acts == [] then s else Do(RunActs(s, acts[..|acts| - 1]), acts[|acts| - 1])
  }

  /** The variable says h hundredths; the clock has last parsed some offset with the same drift. */
  ghost predicate InTune(s: Host, start: Clocks, h: int, drift: string) {
    s.env == Spec(h, drift) && s.clock.start == start && SomeOffset(s.clock, drift)
  }

  ghost predicate SomeOffset(f: Ft, drift: string) {
    exists g :: Steered(f, g, drift)
  }

  lemma FixKeepsTune(s: Host, start: Clocks, h: int, drift: string, d: int, k: int)
    requires DriftText(drift) && InTune(s, start, h, drift) && k == h + d
    ensures InTune(Do(s, Fix(d)), start, k, drift)
  {
    FixShifts(h, d, k, drift);
    Rewrites(s, Spec(h, drift), d, Spec(k, drift));
    Retuned(s, Do(s, Fix(d)), start, h, drift, Spec(k, drift), k);
  }

  lemma Rewrites(s: Host, env: string, d: int, text: string)
    requires s.env == env && Fixed(env, Sync.Seconds(d)) == Rewritten(text)
    ensures Do(s, Fix(d)) == Host(text, s.clock)
  {
  }

  lemma Retuned(s: Host, r: Host, start: Clocks, h: int, drift: string, text: string, k: int)
    requires InTune(s, start, h, drift) && text == Spec(k, drift) && r == Host(text, s.clock)
    ensures InTune(r, start, k, drift)
  {
  }

  lemma ReadKeepsTune(s: Host, start: Clocks, h: int, drift: string, id: ClockId, t: Ts)
    requires DriftText(drift) && InTune(s, start, h, drift)
    ensures InTune(Do(s, Read(id, t)), start, h, drift)
  {
    var g :| Steered(s.clock, g, drift);
    ShiftedEverywhere(s.clock, g, h - g, h, drift, id, Ns(t));
    NotedSteered(Parsed(s.clock, s.env, false), h, drift, id, t);
  }

  lemma NotedSteered(f: Ft, h: int, drift: string, id: ClockId, t: Ts)
    requires Steered(f, h, drift)
    ensures Steered(Noted(f, id, t, 0), h, drift)
  {
  }

  lemma ActKeepsTune(s: Host, r: Host, start: Clocks, h: int, drift: string, a: Act, k: int)
    requires DriftText(drift) && InTune(s, start, h, drift) && k == h + Shift(a) && r == Do(s, a)
    ensures InTune(r, start, k, drift)
  {
    match a
    case Fix(d) => FixKeepsTune(s, start, h, drift, d, k);
    case Read(id, t) => ReadKeepsTune(s, start, h, drift, id, t);
  }

  lemma LastAct(s: Host, acts: seq<Act>)
    requires acts != []
    ensures RunActs(s, acts) == Do(RunActs(s, acts[..|acts| - 1]), acts[|acts| - 1])
    ensures SumOf(acts) == SumOf(acts[..|acts| - 1]) + Shift(acts[|acts| - 1])
  {
  }

  lemma LastKeepsTune(s: Host, start: Clocks, drift: string, acts: seq<Act>, j: int, k: int)
    requires acts != [] && DriftText(drift) && InTune(RunActs(s, acts[..|acts| - 1]), start, j, drift)
    requires k == j + Shift(acts[|acts| - 1])
    ensures InTune(RunActs(s, acts), start, k, drift)
  {
    LastAct(s, acts);
    ActKeepsTune(RunActs(s, acts[..|acts| - 1]), RunActs(s, acts), start, j, drift, acts[|acts| - 1], k);
  }

  lemma {:induction false} RunKeepsTune(s: Host, start: Clocks, h: int, drift: string, acts: seq<Act>, k: int)
    requires DriftText(drift) && InTune(s, start, h, drift) && k == h + SumOf(acts)
    ensures InTune(RunActs(s, acts), start, k, drift)
  {
    if acts != [] {
      var j := k - Shift(acts[|acts| - 1]);
      RunKeepsTune(s, start, h, drift, acts[..|acts| - 1], j);
      LastKeepsTune(s, start, drift, acts, j, k);
    }
  }

  /** What the host's clock `id` shows at the real instant t. */
  function Shows(s: Host, id: ClockId, t: Ts): int {
    Ns(Answer(s.clock, Now(s, id, t), false))
  }

  /** After any sequence of fixes and readings, a reading of any clock shows what the clock would show at that real
      instant had nobody touched the variable, plus the sum of all adjustments. */
  lemma SteeringAddsUp(s: Host, h: int, drift: string, acts: seq<Act>, id: ClockId, t: Ts)
    requires DriftText(drift) && s.env == Spec(h, drift) && Steered(s.clock, h, drift)
    requires Normal(t, NS) && Normal(OfFamily(s.clock.start, id), NS)
    ensures Shows(RunActs(s, acts), id, t) == FakedNs(s.clock, id, Ns(t)) + SumOf(acts) * NS_PER_HUNDREDTH
  {
    var r, k := RunActs(s, acts), h + SumOf(acts);
    assert InTune(r, s.clock.start, k, drift) by {
      RunKeepsTune(s, s.clock.start, h, drift, acts, k);
    }
    ReadsInTune(s.clock, r, h, SumOf(acts), k, drift, id, t);
  }

  lemma ReadsInTune(f: Ft, s: Host, h: int, a: int, k: int, drift: string, id: ClockId, t: Ts)
    requires DriftText(drift) && Steered(f, h, drift) && InTune(s, f.start, k, drift) && k == h + a
    requires Normal(t, NS) && Normal(OfFamily(f.start, id), NS)
    ensures Shows(s, id, t) == FakedNs(f, id, Ns(t)) + a * NS_PER_HUNDREDTH
  {
    var g :| Steered(s.clock, g, drift);
    var c := Parsed(s.clock, s.env, false);
    ShiftedEverywhere(s.clock, g, k - g, k, drift, id, Ns(t));
    AlignedShift(f, c, h, k, DriftRate(drift), id, Ns(t));
    AlignedBase(c, k, DriftRate(drift));
    FakedExact(c, id, t);
  }

  // ---- the clock of the averaging round -------------------------------------------------------------------

  function InSeconds(ns: int): real {
    ns as real / NS as real
  }

  /** The drifting clock that the analysis of the averaging round works with. */
  function ClockOf(startNs: int, rate: real, h: int): Sync.Clock {
    Sync.Clock(InSeconds(startNs) - rate * InSeconds(startNs), rate, h)
  }

  function ShowsNs(c: Sync.Clock, t: int): real {
    Sync.At(c, InSeconds(t)) * NS as real
  }

  predicate Close(n: int, x: real) {
    -1.0 < n as real - x < 1.0
  }

  /** A steered fake clock is that clock, to within the nanosecond that truncation drops. */
  lemma SteeredIsClock(f: Ft, h: int, drift: string, t: int)
    requires Steered(f, h, drift)
    ensures Close(FakedNs(f, Realtime, t), ShowsNs(ClockOf(Ns(f.start.realtime), f.rate, h), t))
  {
    AlignedNs(f, h, DriftRate(drift), t);
    ClockClose(f.rate, Ns(f.start.realtime), t, h, FakedNs(f, Realtime, t));
  }

  lemma AlignedNs(f: Ft, h: int, c: real, t: int)
    requires Aligned(f, h, c)
    ensures FakedNs(f, Realtime, t) == Ns(f.start.realtime) + h * NS_PER_HUNDREDTH + Scaled(f.rate,
            t - Ns(f.start.realtime))
  {
    AlignedBase(f, h, c);
    LineNs(f, h * NS_PER_HUNDREDTH, t);
  }

  lemma LineNs(f: Ft, off: int, t: int)
    requires f.rateSet && Ns(f.base) == Ns(f.start.realtime) + off
    ensures FakedNs(f, Realtime, t) == Ns(f.start.realtime) + off + Scaled(f.rate, t - Ns(f.start.realtime))
  {
  }

  lemma ClockClose(rate: real, S: int, t: int, h: int, n: int)
    requires n == S + h * NS_PER_HUNDREDTH + Scaled(rate, t - S)
    ensures Close(n, ShowsNs(ClockOf(S, rate, h), t))
  {
    ClockInNs(rate, S, t, h);
    TruncatedSum(S, h * NS_PER_HUNDREDTH, rate * (t - S) as real);
  }

  lemma TruncatedSum(s: int, off: int, x: real)
    ensures Close(s + off + Trunc(x), s as real + x + off as real)
  {
  }

  lemma ClockInNs(rate: real, S: int, t: int, h: int)
    ensures ShowsNs(ClockOf(S, rate, h), t) == S as real + rate * (t - S) as real + (h * NS_PER_HUNDREDTH) as real
  {
    var u := NS as real;
    assert rate * (t - S) as real == rate * t as real - rate * S as real;
    assert (rate * InSeconds(S)) * u == rate * S as real;
    assert (rate * InSeconds(t)) * u == rate * t as real;
    assert Sync.Seconds(h) * u == (h * NS_PER_HUNDREDTH) as real;
  }
}
