/** What the texts of a FAKETIME specification mean: signs, numbers, unit letters, rates and increments. */
module Specifications {
  import opened TimeOps
  import opened FakeClock
  import Laws = FakeClockLaws
  import opened Text

  // ---- the offset and its unit --------------------------------------------------------------------------------

  /** The seconds that a number of units is: a letter m anywhere after the sign means minutes, or else an h hours, or
      else a d days, or else a y years of 365 days. */
  predicate IsOffset(body: string, v: real, seconds: real) {
    && ('m' in body ==> seconds == v * 60.0)
    && ('m' !in body && 'h' in body ==> seconds == v * 3600.0)
    && ('m' !in body && 'h' !in body && 'd' in body ==> seconds == v * 86400.0)
    && ('m' !in body && 'h' !in body && 'd' !in body && 'y' in body ==> seconds == v * 31536000.0)
    && ('m' !in body && 'h' !in body && 'd' !in body && 'y' !in body ==> seconds == v)
  }

  /** An offset is its number with its sign, in the unit that a letter names. */
  lemma SignedOffset(s: string, sign: char, body: string)
    requires s == [sign] + body && (sign == '+' || sign == '-')
    ensures IsOffset(body, if sign == '-' then -Magnitude(body) else Magnitude(body), OffsetOf(s))
  {
    if sign == '-' {
      AfterMinus(s, body);
    } else {
      AfterPlus(s, body);
    }
    SameLetters(s, sign, body);
  }

  lemma SameLetters(s: string, sign: char, body: string)
    requires s == [sign] + body && (sign == '+' || sign == '-')
    ensures 'm' in s <==> 'm' in body
    ensures 'h' in s <==> 'h' in body
    ensures 'd' in s <==> 'd' in body
    ensures 'y' in s <==> 'y' in body
  {
  }

  lemma TailLetters(a: string, tail: string, c: char)
    requires AllDigits(a) && !IsDigit(c)
    ensures c in a + tail <==> c in tail
  {
  }

  /** Whole numbers: the unit stands behind the digits, and a rate or increment may follow. */
  lemma WholeOffset(s: string, sign: char, a: string, tail: string)
    requires s == [sign] + (a + tail) && (sign == '+' || sign == '-')
    requires AllDigits(a) && a != [] && EndsWhole(tail)
    ensures IsOffset(tail, if sign == '-' then -(ValueOf(a) as real) else ValueOf(a) as real, OffsetOf(s))
  {
    WholeMagnitude(a + tail, a, tail);
    SignedOffset(s, sign, a + tail);
    TailLetters(a, tail, 'm');
    TailLetters(a, tail, 'h');
    TailLetters(a, tail, 'd');
    TailLetters(a, tail, 'y');
  }

  /** Decimal fractions likewise. */
  lemma FractionOffset(s: string, sign: char, a: string, b: string, tail: string)
    requires s == [sign] + (a + "." + b + tail) && (sign == '+' || sign == '-')
    requires AllDigits(a) && AllDigits(b) && a != [] && b != [] && Ends(tail)
    ensures IsOffset(tail, if sign == '-' then -Decimal(a, b) else Decimal(a, b), OffsetOf(s))
  {
    var body := a + "." + b + tail;
    FractionMagnitude(body, a, b, tail);
    SignedOffset(s, sign, body);
    PointLetters(a, b, tail, 'm');
    PointLetters(a, b, tail, 'h');
    PointLetters(a, b, tail, 'd');
    PointLetters(a, b, tail, 'y');
  }

  lemma PointLetters(a: string, b: string, tail: string, c: char)
    requires AllDigits(a) && AllDigits(b) && !IsDigit(c) && c != '.'
    ensures c in a + "." + b + tail <==> c in tail
  {
  }

  // ---- whole texts --------------------------------------------------------------------------------------------

  /** So many units, forward or back. */
  function Amount(sign: char, n: nat, unit: string): string {
    [sign] + (Digits(n) + unit)
  }

  function Signed(sign: char, n: nat): int {
    if sign == '-' then 0 - n else n
  }

  lemma AmountReads(sign: char, n: nat, unit: string)
    requires (sign == '+' || sign == '-') && EndsWhole(unit)
    ensures IsOffset(unit, Signed(sign, n) as real, OffsetOf(Amount(sign, n, unit)))
  {
    DigitsRoundTrip(n);
    WholeOffset(Amount(sign, n, unit), sign, Digits(n), unit);
  }

  /** What one letter, or none, makes of a number. */
  lemma UnitLetters(v: real, seconds: real)
    ensures IsOffset("m", v, seconds) <==> seconds == v * 60.0
    ensures IsOffset("h", v, seconds) <==> seconds == v * 3600.0
    ensures IsOffset("d", v, seconds) <==> seconds == v * 86400.0
    ensures IsOffset("y", v, seconds) <==> seconds == v * 31536000.0
    ensures IsOffset("", v, seconds) <==> seconds == v
  {
    assert "m"[0] == 'm' && "h"[0] == 'h' && "d"[0] == 'd' && "y"[0] == 'y';
  }

  lemma Minutes(sign: char, n: nat)
    requires sign == '+' || sign == '-'
    ensures OffsetOf(Amount(sign, n, "m")) == Signed(sign, n) as real * 60.0
  {
    AmountReads(sign, n, "m");
    UnitLetters(Signed(sign, n) as real, OffsetOf(Amount(sign, n, "m")));
  }

  lemma Hours(sign: char, n: nat)
    requires sign == '+' || sign == '-'
    ensures OffsetOf(Amount(sign, n, "h")) == Signed(sign, n) as real * 3600.0
  {
    AmountReads(sign, n, "h");
    UnitLetters(Signed(sign, n) as real, OffsetOf(Amount(sign, n, "h")));
  }

  lemma Days(sign: char, n: nat)
    requires sign == '+' || sign == '-'
    ensures OffsetOf(Amount(sign, n, "d")) == Signed(sign, n) as real * 86400.0
  {
    AmountReads(sign, n, "d");
    UnitLetters(Signed(sign, n) as real, OffsetOf(Amount(sign, n, "d")));
  }

  lemma Years(sign: char, n: nat)
    requires sign == '+' || sign == '-'
    ensures OffsetOf(Amount(sign, n, "y")) == Signed(sign, n) as real * 31536000.0
  {
    AmountReads(sign, n, "y");
    UnitLetters(Signed(sign, n) as real, OffsetOf(Amount(sign, n, "y")));
  }

  lemma PlainAmount(sign: char, n: nat)
    requires sign == '+' || sign == '-'
    ensures OffsetOf(Amount(sign, n, "")) == Signed(sign, n) as real
  {
    AmountReads(sign, n, "");
    UnitLetters(Signed(sign, n) as real, OffsetOf(Amount(sign, n, "")));
  }

  /** n hours are 60n minutes and 3600n seconds, n days are 24n hours and n years are 365n days, forward and back. */
  lemma UnitsAgree(sign: char, n: nat)
    requires sign == '+' || sign == '-'
    ensures OffsetOf(Amount(sign, n, "h")) == OffsetOf(Amount(sign, 60 * n, "m"))
    ensures OffsetOf(Amount(sign, n, "h")) == OffsetOf(Amount(sign, 3600 * n, ""))
    ensures OffsetOf(Amount(sign, n, "d")) == OffsetOf(Amount(sign, 24 * n, "h"))
    ensures OffsetOf(Amount(sign, n, "y")) == OffsetOf(Amount(sign, 365 * n, "d"))
    ensures OffsetOf(Amount('-', n, "h")) == -OffsetOf(Amount('+', n, "h"))
  {
    Hours(sign, n);
    Minutes(sign, 60 * n);
    PlainAmount(sign, 3600 * n);
    Days(sign, n);
    Hours(sign, 24 * n);
    Years(sign, n);
    Days(sign, 365 * n);
    Hours('+', n);
    Hours('-', n);
  }

  /** Texts with equal offsets and neither rate nor increment put the same clock in force. */
  lemma EqualOffsets(f: Ft, s: string, t: string, xreset: bool)
    requires s != f.saved && t != f.saved && OffsetOf(s) == OffsetOf(t)
    requires 'x' !in s && 'i' !in s && 'x' !in t && 'i' !in t
    ensures Parsed(f, s, xreset) == Parsed(f, t, xreset).(saved := s)
  {
  }

  lemma NoModifier(sign: char, n: nat, unit: string)
    requires (sign == '+' || sign == '-') && 'x' !in unit && 'i' !in unit
    ensures 'x' !in Amount(sign, n, unit) && 'i' !in Amount(sign, n, unit)
  {
    TailLetters(Digits(n), unit, 'x');
    TailLetters(Digits(n), unit, 'i');
  }

  /** Parsing such a text moves the base that many seconds from the start. */
  lemma AmountParses(f: Ft, s: string, seconds: int, xreset: bool)
    requires OffsetOf(s) == seconds as real && 'x' !in s && 'i' !in s && s != f.saved && Normal(f.start.realtime, NS)
    ensures Ns(Parsed(f, s, xreset).base) == Ns(f.start.realtime) + seconds * NS
  {
    Laws.BaseParsed(f, s, xreset);
    WholeSeconds(seconds);
  }

  lemma WholeSeconds(seconds: int)
    ensures Ns(ToTs(seconds as real)) == seconds * NS
  {
  }

  /** n u and k w are the same span of time. */
  predicate SameSpan(n: nat, u: string, k: nat, w: string) {
    || (u == "h" && w == "m" && k == 60 * n) || (u == "h" && w == "" && k == 3600 * n)
    || (u == "d" && w == "h" && k == 24 * n) || (u == "y" && w == "d" && k == 365 * n)
  }

  lemma SpanOffset(sign: char, n: nat, u: string, k: nat, w: string)
    requires (sign == '+' || sign == '-') && SameSpan(n, u, k, w)
    ensures OffsetOf(Amount(sign, n, u)) == OffsetOf(Amount(sign, k, w))
  {
    UnitsAgree(sign, n);
  }

  lemma SpanLetters(n: nat, u: string, k: nat, w: string)
    requires SameSpan(n, u, k, w)
    ensures 'x' !in u && 'i' !in u && 'x' !in w && 'i' !in w
  {
  }

  /** "+1h" puts the same clock in force as "+60m" and "+3600" do, "+1d" the same as "+24h" and "+1y" the same as
      "+365d", and so for any number of units, ahead or behind. */
  lemma SpansParseAlike(f: Ft, sign: char, n: nat, u: string, k: nat, w: string, xreset: bool)
    requires (sign == '+' || sign == '-') && SameSpan(n, u, k, w)
    requires Amount(sign, n, u) != f.saved && Amount(sign, k, w) != f.saved
    ensures Parsed(f, Amount(sign, n, u), xreset)
         == Parsed(f, Amount(sign, k, w), xreset).(saved := Amount(sign, n, u))
  {
    SpanOffset(sign, n, u, k, w);
    SpanLetters(n, u, k, w);
    NoModifier(sign, n, u);
    NoModifier(sign, k, w);
    EqualOffsets(f, Amount(sign, n, u), Amount(sign, k, w), xreset);
  }

  /** The base an hour's, or so many hours', offset gives, in nanoseconds. */
  lemma HoursParse(f: Ft, sign: char, n: nat, xreset: bool)
    requires (sign == '+' || sign == '-') && Normal(f.start.realtime, NS) && Amount(sign, n, "h") != f.saved
    ensures Ns(Parsed(f, Amount(sign, n, "h"), xreset).base) == Ns(f.start.realtime) + Signed(sign, n) * 3600 * NS
  {
    Hours(sign, n);
    NoModifier(sign, n, "h");
    AmountParses(f, Amount(sign, n, "h"), Signed(sign, n) * 3600, xreset);
  }

  // ---- the rate and the increment -----------------------------------------------------------------------------

  lemma AfterLetter(s: string, t: string, c: char, rest: string)
    requires s == t + [c] + rest && c !in t
    ensures c in s && After(s, c) == rest
  {
    FirstSeparator(t, c, rest);
    assert s[|t|] == c;
  }

  /** The rate is the number behind the first x, and where there is an x nothing else is looked for. */
  lemma RateReads(s: string, t: string, a: string, tail: string)
    requires s == t + ['x'] + (a + tail) && 'x' !in t && AllDigits(a) && a != [] && EndsWhole(tail)
    ensures 'x' in s && RateOf(s) == ValueOf(a) as real && !Ticks(s)
  {
    AfterLetter(s, t, 'x', a + tail);
    WholeReads(a + tail, a, tail);
  }

  lemma FractionRateReads(s: string, t: string, a: string, b: string, tail: string)
    requires s == t + ['x'] + (a + "." + b + tail) && 'x' !in t
    requires AllDigits(a) && AllDigits(b) && a != [] && b != [] && Ends(tail)
    ensures 'x' in s && RateOf(s) == Decimal(a, b) && !Ticks(s)
  {
    AfterLetter(s, t, 'x', a + "." + b + tail);
    FractionReads(a + "." + b + tail, a, b, tail);
  }

  /** Without an x, the increment is the number behind the first i. */
  lemma IncrementReads(s: string, t: string, a: string, tail: string)
    requires s == t + ['i'] + (a + tail) && 'i' !in t && 'x' !in s && AllDigits(a) && a != [] && EndsWhole(tail)
    ensures Ticks(s) && IncrementOf(s) == ValueOf(a) as real
  {
    AfterLetter(s, t, 'i', a + tail);
    WholeReads(a + tail, a, tail);
  }

  lemma FractionIncrementReads(s: string, t: string, a: string, b: string, tail: string)
    requires s == t + ['i'] + (a + "." + b + tail) && 'i' !in t && 'x' !in s
    requires AllDigits(a) && AllDigits(b) && a != [] && b != [] && Ends(tail)
    ensures Ticks(s) && IncrementOf(s) == Decimal(a, b)
  {
    AfterLetter(s, t, 'i', a + "." + b + tail);
    FractionReads(a + "." + b + tail, a, b, tail);
  }

  // ---- other ways of writing a number -------------------------------------------------------------------------

  /** A hexadecimal number is read as such. */
  lemma HexOffset(n: nat)
    ensures Atof("+0x" + Hex(n)) == n as real
  {
    var t := "0x" + (Hex(n) + "");
    HexReads(t, n, "");
    assert "+0x" + Hex(n) == ['+'] + t;
    AfterPlus("+0x" + Hex(n), t);
  }

  /** A number of units of a power. */
  function Times(v: real, b: nat, mark: string, k: nat): real
    requires b > 0 && mark != []
  {
    if mark[|mark| - 1] == '-' then v / Power(b, k) as real else v * Power(b, k) as real
  }

  lemma ShiftedTimes(v: real, b: nat, mark: string, e: string)
    requires b > 0 && mark != [] && AllDigits(e)
    ensures Shifted(v, b, SignedExponent(mark, e)) == Times(v, b, mark, ValueOf(e))
  {
    ShiftedUp(v, b, ValueOf(e));
    ShiftedDown(v, b, ValueOf(e));
  }

  /** A decimal exponent moves the point to the right, and a negative one to the left. */
  lemma ExponentOffset(s: string, n: nat, mark: string, e: string)
    requires s == ['+'] + (Digits(n) + (mark + e)) && AllDigits(e) && e != [] && Mark(mark, "eE")
    ensures Atof(s) == Times(n as real, 10, mark, ValueOf(e))
  {
    DigitsRoundTrip(n);
    ExponentMagnitude(Digits(n) + (mark + e), Digits(n), mark + e, mark, e);
    AfterPlus(s, Digits(n) + (mark + e));
    ShiftedTimes(n as real, 10, mark, e);
  }

  /** A binary exponent, behind a hexadecimal number, doubles or halves. */
  lemma HexExponentOffset(s: string, n: nat, mark: string, e: string)
    requires s == ['+'] + ("0x" + (Hex(n) + (mark + e))) && AllDigits(e) && e != [] && Mark(mark, "pP")
    ensures Atof(s) == Times(n as real, 2, mark, ValueOf(e))
  {
    HexExponentReads("0x" + (Hex(n) + (mark + e)), n, Hex(n) + (mark + e), mark + e, mark, e);
    AfterPlus(s, "0x" + (Hex(n) + (mark + e)));
    ShiftedTimes(n as real, 2, mark, e);
  }
}
