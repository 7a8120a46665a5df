/** Text as the daemon and the library exchange it: splitting and joining, decimal digits, and decimal fractions. */
module Text {
  import Bits

  // ---- split and join -------------------------------------------------------------------------------------

  function IndexOf(s: string, c: char): (i: nat)
    ensures i <= |s| && c !in s[..i] && (i < |s| ==> s[i] == c) && (c in s <==> i < |s|)
  {
    if s == [] || s[0] == c then 0
    else
      var i := 1 + IndexOf(s[1..], c);
      assert s[..i] == [s[0]] + s[1..][..i - 1];
      i
  }

  /** Cut at every separator; there is always at least one part. */
  function Split(s: string, c: char): (parts: seq<string>)
    ensures |parts| >= 1
    decreases |s|
  {
    var i := IndexOf(s, c);
    if i == |s| then [s] else [s[..i]] + Split(s[i + 1..], c)
  }

  function Join(parts: seq<string>, c: char): string
    requires parts != []
  {
    if |parts| == 1 then parts[0] else parts[0] + [c] + Join(parts[1..], c)
  }

  lemma {:induction false} SplitJoin(parts: seq<string>, c: char)
    requires parts != [] && forall k | 0 <= k < |parts| :: c !in parts[k]
    ensures Split(Join(parts, c), c) == parts
  {
    var s := Join(parts, c);
    if |parts| > 1 {
      var rest := Join(parts[1..], c);
      assert s == parts[0] + [c] + rest;
      FirstSeparator(parts[0], c, rest);
      SplitJoin(parts[1..], c);
    }
  }

  lemma FirstSeparator(a: string, c: char, rest: string)
    requires c !in a
    ensures var s := a + [c] + rest;
            IndexOf(s, c) == |a| && s[..|a|] == a && s[|a| + 1..] == rest
  {
    var s := a + [c] + rest;
    assert s[|a|] == c;
    assert c in s;
    assert forall k | 0 <= k < |a| :: s[k] == a[k] && a[k] in a;
  }

  lemma {:induction false} JoinSplit(s: string, c: char)
    ensures Join(Split(s, c), c) == s
    ensures forall k | 0 <= k < |Split(s, c)| :: c !in Split(s, c)[k]
    decreases |s|
  {
    var i := IndexOf(s, c);
    if i < |s| {
      JoinSplit(s[i + 1..], c);
      assert Split(s, c)[1..] == Split(s[i + 1..], c);
      assert s == s[..i] + [c] + s[i + 1..];
    }
  }

  // ---- decimal digits -------------------------------------------------------------------------------------

  predicate IsDigit(c: char) {
    '0' <= c <= '9'
  }

  predicate AllDigits(s: string) {
    forall k | 0 <= k < |s| :: IsDigit(s[k])
  }

  function DigitChar(d: nat): (c: char)
    requires d < 10
    ensures IsDigit(c)
  {
    '0' + d as char
  }

  function DigitOf(c: char): nat
    requires IsDigit(c)
  {
    c as nat - '0' as nat
  }

  function Digits(n: nat): (s: string)
    ensures s != [] && AllDigits(s)
  {
    if n < 10 then [DigitChar(n)] else Digits(n / 10) + [DigitChar(n % 10)]
  }

  function ValueOf(s: string): nat
    requires AllDigits(s)
  {
    if s == [] then 0 else 10 * ValueOf(s[..|s| - 1]) + DigitOf(s[|s| - 1])
  }

  lemma ValueSnoc(s: string, d: nat)
    requires AllDigits(s) && d < 10
    ensures AllDigits(s + [DigitChar(d)]) && ValueOf(s + [DigitChar(d)]) == 10 * ValueOf(s) + d
  {
    assert (s + [DigitChar(d)])[..|s|] == s;
  }

  lemma {:induction false} DigitsRoundTrip(n: nat)
    ensures ValueOf(Digits(n)) == n
  {
    if n < 10 {
      ValueSnoc([], n);
      assert [] + [DigitChar(n)] == Digits(n);
    } else {
      DigitsRoundTrip(n / 10);
      ValueSnoc(Digits(n / 10), n % 10);
    }
  }

  // ---- decimal fractions ----------------------------------------------------------------------------------

  function Power(b: nat, k: nat): (p: nat)
    requires b > 0
    ensures p > 0
  {
    if k == 0 then 1 else b * Power(b, k - 1)
  }

  function LeadingDigits(s: string): (k: nat)
    ensures k <= |s| && AllDigits(s[..k]) && (k < |s| ==> !IsDigit(s[k]))
  {
    if s == [] || !IsDigit(s[0]) then 0
    else
      var k := 1 + LeadingDigits(s[1..]);
      assert s[..k] == [s[0]] + s[1..][..k - 1];
      k
  }

  /** A number at the front of a text: its value and how many characters it takes. */
  datatype Scanned = Scanned(value: real, length: nat)

  const NOTHING := Scanned(0.0, 0)

  function Decimal(whole: string, fraction: string): real
    requires AllDigits(whole) && AllDigits(fraction)
  {
    ValueOf(whole) as real + ValueOf(fraction) as real / Power(10, |fraction|) as real
  }

  /** Digits with a point before, between, after them or nowhere. */
  function Mantissa(s: string): (r: Scanned)
    ensures r.length <= |s|
  {
    var i := LeadingDigits(s);
    if i < |s| && s[i] == '.' then
      var f := LeadingDigits(s[i + 1..]);
      if i + f == 0 then NOTHING else Scanned(Decimal(s[..i], s[i + 1..][..f]), i + 1 + f)
    else Scanned(ValueOf(s[..i]) as real, i)
  }

  datatype Exponent = Exponent(value: int, length: nat)

  /** An exponent at the front of s, marked by one of these letters; without digits there is none. */
  function ExponentAt(s: string, letters: string): (r: Exponent)
    ensures r.length <= |s|
  {
    if s == [] || s[0] !in letters then Exponent(0, 0)
    else
      var k := if |s| > 1 && (s[1] == '+' || s[1] == '-') then 2 else 1;
      var d := LeadingDigits(s[k..]);
      var e: int := ValueOf(s[k..][..d]);
      if d == 0 then Exponent(0, 0) else Exponent(if s[k - 1] == '-' then -e else e, k + d)
  }

  function Shifted(v: real, b: nat, e: int): real
    requires b > 0
  {
    if e >= 0 then v * Power(b, e) as real else v / Power(b, -e) as real
  }

  /** The number and the exponent that follows it. */
  function Exponentiated(m: Scanned, s: string, letters: string, b: nat): (r: Scanned)
    requires m.length <= |s| && b > 0
    ensures r.length <= |s|
  {
    if m.length == 0 then m
    else
      var e := ExponentAt(s[m.length..], letters);
      Scanned(Shifted(m.value, b, e.value), m.length + e.length)
  }

  function ScanUnsigned(s: string): (r: Scanned)
    ensures r.length <= |s|
  {
    Exponentiated(Mantissa(s), s, "eE", 10)
  }

  /** A decimal number with or without a sign. */
  function Scan(s: string): (r: Scanned)
    ensures r.length <= |s|
  {
    if s != [] && (s[0] == '+' || s[0] == '-') then
      var u := ScanUnsigned(s[1..]);
      if u.length == 0 then NOTHING else Scanned(if s[0] == '-' then -u.value else u.value, 1 + u.length)
    else ScanUnsigned(s)
  }

  // ---- atof -----------------------------------------------------------------------------------------------

  predicate IsBlank(c: char) {
    c == ' ' || '\t' <= c <= '\r'
  }

  function SkipBlanks(s: string): string {
    if s != [] && IsBlank(s[0]) then SkipBlanks(s[1..]) else s
  }

  function SkipSign(s: string): string {
    if s != [] && (s[0] == '+' || s[0] == '-') then s[1..] else s
  }

  function Lower(c: char): char {
    if 'A' <= c <= 'Z' then c + ' ' else c
  }

  predicate StartsWith(s: string, word: string) {
    |word| <= |s| && forall k | 0 <= k < |word| :: Lower(s[k]) == word[k]
  }

  predicate IsHexDigit(c: char) {
    IsDigit(c) || 'a' <= Lower(c) <= 'f'
  }

  function HexDigitOf(c: char): nat
    requires IsHexDigit(c)
  {
    if IsDigit(c) then DigitOf(c) else Lower(c) as nat - 'a' as nat + 10
  }

  function LeadingHex(s: string): (k: nat)
    ensures k <= |s| && forall j | 0 <= j < k :: IsHexDigit(s[j])
  {
    if s == [] || !IsHexDigit(s[0]) then 0 else 1 + LeadingHex(s[1..])
  }

  function HexOf(s: string): nat
    requires forall k | 0 <= k < |s| :: IsHexDigit(s[k])
  {
    if s == [] then 0
    else
      16 * HexOf(s[..|s| - 1]) + HexDigitOf(s[|s| - 1])
  }

  /** Hexadecimal digits with at most one point among them. */
  function HexMantissa(s: string): (r: Scanned)
    ensures r.length <= |s|
  {
    var i := LeadingHex(s);
    if i < |s| && s[i] == '.' then
      var f := LeadingHex(s[i + 1..]);
      if i + f == 0 then NOTHING
      else Scanned(HexOf(s[..i]) as real + HexOf(s[i + 1..][..f]) as real / Power(16, f) as real, i + 1 + f)
    else Scanned(HexOf(s[..i]) as real, i)
  }

  predicate HexPrefix(s: string) {
    |s| >= 2 && s[0] == '0' && Lower(s[1]) == 'x'
  }

  /** A hexadecimal number where there is one, and a decimal one, perhaps the 0 before an x, otherwise. */
  function Magnitude(s: string): real {
    if HexPrefix(s) then HexMagnitude(s[2..]) else ScanUnsigned(s).value
  }

  function HexMagnitude(s: string): real {
    Exponentiated(HexMantissa(s), s, "pP", 2).value
  }

  /** atof on a text that does not name an infinity or no number: blanks in front and what follows the number are
      ignored. */
  function Atof(s: string): real {
    var t := SkipBlanks(s);
    if t != [] && t[0] == '-' then -Magnitude(t[1..]) else Magnitude(SkipSign(t))
  }

  /** Where atof reads a number, or nothing, and not an infinity or "nan". */
  predicate Finite(s: string) {
    var t := SkipSign(SkipBlanks(s));
    !StartsWith(t, "inf") && !StartsWith(t, "nan")
  }

  /** On what is not blank in front and not hexadecimal, atof reads the decimal number. */
  lemma AtofIsScan(s: string)
    requires s != [] && !IsBlank(s[0]) && !HexPrefix(SkipSign(s))
    ensures Atof(s) == Scan(s).value
  {
  }

  /** What may follow a whole number without becoming part of it. */
  predicate EndsWhole(tail: string) {
    tail == [] || (!IsDigit(tail[0]) && tail[0] != '.' && tail[0] !in "eE" && tail[0] !in "xX")
  }

  /** A whole number and what follows it. */
  lemma WholeMagnitude(s: string, a: string, tail: string)
    requires s == a + tail && AllDigits(a) && a != [] && EndsWhole(tail)
    ensures Magnitude(s) == ValueOf(a) as real && IsDigit(s[0])
  {
    WholeMantissa(a, tail);
    assert s[|a|..] == tail;
    NoExponent(Mantissa(s), s);
    WholeIsDecimal(s, a, tail);
  }

  lemma WholeIsDecimal(s: string, a: string, tail: string)
    requires s == a + tail && AllDigits(a) && a != [] && EndsWhole(tail)
    ensures !HexPrefix(s) && IsDigit(s[0])
  {
    if |s| > 1 {
      assert s[1] == if |a| > 1 then a[1] else tail[0];
    }
  }

  lemma WholeReads(s: string, a: string, tail: string)
    requires s == a + tail && AllDigits(a) && a != [] && EndsWhole(tail)
    ensures Atof(s) == ValueOf(a) as real
  {
    WholeMagnitude(s, a, tail);
    NoSign(s);
  }

  lemma NoSign(s: string)
    requires s != [] && IsDigit(s[0])
    ensures Atof(s) == Magnitude(s)
  {
  }

  lemma PlusReads(s: string, a: string, tail: string)
    requires s == ['+'] + (a + tail) && AllDigits(a) && a != [] && EndsWhole(tail)
    ensures Atof(s) == ValueOf(a) as real
  {
    WholeMagnitude(a + tail, a, tail);
    AfterPlus(s, a + tail);
  }

  lemma AfterPlus(s: string, t: string)
    requires s == ['+'] + t
    ensures Atof(s) == Magnitude(t)
  {
    assert s[1..] == t;
  }

  lemma AfterMinus(s: string, t: string)
    requires s == ['-'] + t
    ensures Atof(s) == -Magnitude(t)
  {
    assert s[1..] == t;
  }

  lemma MinusReads(s: string, a: string, tail: string)
    requires s == [' ', '-'] + (a + tail) && AllDigits(a) && a != [] && EndsWhole(tail)
    ensures Atof(s) == -(ValueOf(a) as real)
  {
    WholeMagnitude(a + tail, a, tail);
    assert s[1..][0] == '-' && s[1..][1..] == a + tail;
    assert SkipBlanks(s) == SkipBlanks(s[1..]) == s[1..];
  }

  lemma DecimalMagnitude(s: string, m: Scanned)
    requires !HexPrefix(s) && ScanUnsigned(s) == m
    ensures Magnitude(s) == m.value
  {
  }

  /** A decimal fraction and what follows it. */
  lemma FractionMagnitude(s: string, a: string, b: string, tail: string)
    requires s == a + "." + b + tail && AllDigits(a) && AllDigits(b) && a != [] && b != [] && Ends(tail)
    ensures Magnitude(s) == Decimal(a, b)
  {
    ScanParts(a, b, tail);
    Pieces(a, b, tail);
    DigitsNotHex(s, a, "." + b + tail);
    DecimalMagnitude(s, Scanned(Decimal(a, b), |a| + 1 + |b|));
  }

  lemma DigitsNotHex(s: string, a: string, rest: string)
    requires s == a + rest && AllDigits(a) && a != [] && rest != [] && rest[0] !in "xX"
    ensures !HexPrefix(s)
  {
    assert s[1] == if |a| > 1 then a[1] else rest[0];
  }

  lemma FractionReads(s: string, a: string, b: string, tail: string)
    requires s == a + "." + b + tail && AllDigits(a) && AllDigits(b) && a != [] && b != [] && Ends(tail)
    ensures Atof(s) == Decimal(a, b)
  {
    FractionMagnitude(s, a, b, tail);
    assert s[0] == a[0];
    NoSign(s);
  }

  /** What an exponent begins with: its letter, and perhaps a sign. */
  predicate Mark(mark: string, letters: string) {
    && '-' !in letters && '+' !in letters && 1 <= |mark| <= 2 && mark[0] in letters
    && (|mark| == 2 ==> mark[1] == '+' || mark[1] == '-')
  }

  /** An exponent that ends the text. */
  lemma ExponentIs(tail: string, mark: string, b: string, letters: string)
    requires tail == mark + b && Mark(mark, letters) && AllDigits(b) && b != []
    ensures ExponentAt(tail, letters) == Exponent(SignedExponent(mark, b), |tail|)
  {
    assert tail[|mark|..] == b && b[..|b|] == b && tail[|mark|] == b[0];
    assert forall k | 0 <= k < |mark| :: tail[k] == mark[k];
    assert b + "" == b;
    LeadingDigitsOf(b, "");
  }

  /** How far an exponent with this mark moves the point. */
  function SignedExponent(mark: string, b: string): int
    requires mark != [] && AllDigits(b)
  {
    var n: int := ValueOf(b);
    if mark[|mark| - 1] == '-' then -n else n
  }

  /** A whole number with a decimal exponent. */
  lemma ExponentMagnitude(s: string, a: string, tail: string, mark: string, b: string)
    requires s == a + tail && tail == mark + b && Mark(mark, "eE") && AllDigits(a) && AllDigits(b)
    requires a != [] && b != []
    ensures Magnitude(s) == Shifted(ValueOf(a) as real, 10, SignedExponent(mark, b))
  {
    MarkFirst(tail, mark, b, "eE");
    WholeMantissa(a, tail);
    ExponentIs(tail, mark, b, "eE");
    AfterWhole(a, tail);
    WithExponent(Scanned(ValueOf(a) as real, |a|), s, tail, ExponentAt(tail, "eE"));
    DigitsNotHex(s, a, tail);
    DecimalMagnitude(s, ScanUnsigned(s));
  }

  lemma MarkFirst(tail: string, mark: string, b: string, letters: string)
    requires tail == mark + b && Mark(mark, letters)
    ensures tail != [] && tail[0] in letters
  {
  }

  lemma AfterWhole(a: string, tail: string)
    ensures (a + tail)[|a|..] == tail
  {
  }

  lemma ShiftedUp(v: real, b: nat, n: nat)
    requires b > 0
    ensures Shifted(v, b, n) == v * Power(b, n) as real
  {
  }

  lemma ShiftedDown(v: real, b: nat, n: nat)
    requires b > 0
    ensures Shifted(v, b, -(n as int)) == v / Power(b, n) as real
  {
    assert Power(b, 0) == 1;
  }

  // ---- hexadecimal numbers --------------------------------------------------------------------------------

  const HEX_DIGITS: string := "0123456789abcdef"

  /** A number printed in hexadecimal. */
  function Hex(n: nat): (s: string)
    ensures s != [] && AllHex(s)
  {
    HexDigit(n % 16);
    if n < 16 then [HEX_DIGITS[n]] else Hex(n / 16) + [HEX_DIGITS[n % 16]]
  }

  predicate AllHex(s: string) {
    forall k | 0 <= k < |s| :: IsHexDigit(s[k])
  }

  lemma HexDigit(d: nat)
    requires d < 16
    ensures |HEX_DIGITS| == 16 && IsHexDigit(HEX_DIGITS[d]) && HexDigitOf(HEX_DIGITS[d]) == d
  {
    if d < 10 {
      assert HEX_DIGITS[d] as nat == '0' as nat + d;
    } else {
      assert HEX_DIGITS[d] as nat == 'a' as nat + (d - 10);
    }
  }

  lemma {:induction false} HexRoundTrip(n: nat)
    ensures HexOf(Hex(n)) == n
  {
    if n < 16 {
      OneHexDigit(n, Hex(n));
    } else {
      HexRoundTrip(n / 16);
      MoreHexDigits(n, n / 16, n % 16, Hex(n));
    }
  }

  lemma OneHexDigit(d: nat, s: string)
    requires d < 16 && s == Hex(d)
    ensures HexOf(s) == d
  {
    HexDigit(d);
    HexSnoc([], HEX_DIGITS[d]);
    assert [] + [HEX_DIGITS[d]] == s;
  }

  lemma MoreHexDigits(n: nat, q: nat, r: nat, s: string)
    requires r < 16 && n == 16 * q + r && n >= 16 && s == Hex(n) && HexOf(Hex(q)) == q
    ensures HexOf(s) == n
  {
    Bits.DivModUnique(n, 16, q, r);
    HexDigit(r);
    HexSnoc(Hex(q), HEX_DIGITS[r]);
  }

  lemma HexSnoc(s: string, c: char)
    requires AllHex(s) && IsHexDigit(c)
    ensures AllHex(s + [c]) && HexOf(s + [c]) == 16 * HexOf(s) + HexDigitOf(c)
  {
    assert (s + [c])[..|s|] == s;
  }

  lemma {:induction false} LeadingHexOf(a: string, rest: string)
    requires AllHex(a) && (rest != [] ==> !IsHexDigit(rest[0]))
    ensures LeadingHex(a + rest) == |a|
  {
    if a == [] {
      assert a + rest == rest;
    } else {
      assert (a + rest)[1..] == a[1..] + rest;
      LeadingHexOf(a[1..], rest);
    }
  }

  /** A hexadecimal number, to the end of the text or up to something that is not part of it. */
  lemma HexReads(s: string, n: nat, tail: string)
    requires s == "0x" + (Hex(n) + tail)
    requires tail == [] || (!IsHexDigit(tail[0]) && tail[0] != '.' && tail[0] !in "pP")
    ensures Magnitude(s) == n as real
  {
    HexWhole(Hex(n), tail);
    HexRoundTrip(n);
    assert s[2..] == Hex(n) + tail && (Hex(n) + tail)[|Hex(n)|..] == tail;
    assert Power(2, 0) == 1;
  }

  lemma HexWhole(a: string, tail: string)
    requires AllHex(a) && a != [] && (tail == [] || (!IsHexDigit(tail[0]) && tail[0] != '.'))
    ensures HexMantissa(a + tail) == Scanned(HexOf(a) as real, |a|)
  {
    LeadingHexOf(a, tail);
    assert (a + tail)[..|a|] == a;
  }

  /** And with a binary exponent. */
  lemma HexExponentReads(s: string, n: nat, t: string, tail: string, mark: string, b: string)
    requires s == "0x" + t && t == Hex(n) + tail && tail == mark + b && Mark(mark, "pP") && AllDigits(b) && b != []
    ensures Magnitude(s) == Shifted(n as real, 2, SignedExponent(mark, b))
  {
    MarkFirst(tail, mark, b, "pP");
    HexWhole(Hex(n), tail);
    HexRoundTrip(n);
    ExponentIs(tail, mark, b, "pP");
    AfterWhole(Hex(n), tail);
    HexShifted(t, Scanned(n as real, |Hex(n)|), tail, ExponentAt(tail, "pP"));
    AfterZeroX(s, t);
  }

  lemma AfterZeroX(s: string, t: string)
    requires s == "0x" + t
    ensures Magnitude(s) == HexMagnitude(t)
  {
    assert s[2..] == t;
  }

  lemma HexShifted(t: string, m: Scanned, tail: string, e: Exponent)
    requires 0 < m.length <= |t| && HexMantissa(t) == m && t[m.length..] == tail && e == ExponentAt(tail, "pP")
    ensures HexMagnitude(t) == Shifted(m.value, 2, e.value)
  {
  }

  // ---- hundredths -----------------------------------------------------------------------------------------

  /** Hundredths printed with a sign and two decimals. */
  function FormatHundredths(h: int): (s: string)
    ensures |s| >= 5 && (s[0] == '+' || s[0] == '-')
  {
    var a := if h < 0 then -h else h;
    [if h < 0 then '-' else '+'] + (Digits(a / 100) + "." + CentsOf(a))
  }

  function CentsOf(a: nat): (s: string)
    ensures |s| == 2
  {
    [DigitChar(a % 100 / 10), DigitChar(a % 10)]
  }

  lemma LeadingDigitsOf(a: string, rest: string)
    requires AllDigits(a) && (rest != [] ==> !IsDigit(rest[0]))
    ensures LeadingDigits(a + rest) == |a|
  {
    if a == [] {
      assert a + rest == rest;
    } else {
      assert (a + rest)[1..] == a[1..] + rest;
      LeadingDigitsOf(a[1..], rest);
    }
  }

  lemma Pieces(a: string, b: string, rest: string)
    ensures var s := a + "." + b + rest;
            s == a + ("." + b + rest) && s[|a|] == '.' && s[..|a|] == a && s[|a| + 1..] == b + rest
                    && (b + rest)[..|b|] == b
  {
  }

  /** What may follow a printed number without becoming part of it. */
  predicate Ends(rest: string) {
    rest == [] || (!IsDigit(rest[0]) && rest[0] !in "eE")
  }

  lemma NoExponent(m: Scanned, s: string)
    requires m.length <= |s| && Ends(s[m.length..])
    ensures Exponentiated(m, s, "eE", 10) == m
  {
    assert Power(10, 0) == 1;
  }

  lemma ScanParts(a: string, b: string, rest: string)
    requires AllDigits(a) && AllDigits(b) && b != [] && Ends(rest)
    ensures ScanUnsigned(a + "." + b + rest) == Scanned(Decimal(a, b), |a| + 1 + |b|)
  {
    var s := a + "." + b + rest;
    MantissaParts(a, b, rest);
    assert s[|a| + 1 + |b|..] == rest;
    NoExponent(Mantissa(s), s);
  }

  lemma MantissaParts(a: string, b: string, rest: string)
    requires AllDigits(a) && AllDigits(b) && b != [] && Ends(rest)
    ensures Mantissa(a + "." + b + rest) == Scanned(Decimal(a, b), |a| + 1 + |b|)
  {
    Pieces(a, b, rest);
    LeadingDigitsOf(a, "." + b + rest);
    LeadingDigitsOf(b, rest);
  }

  /** Reading back what was printed, whatever follows it that is not a digit or an exponent. */
  lemma FormatRoundTrip(h: int, rest: string)
    requires Ends(rest)
    ensures Scan(FormatHundredths(h) + rest) == Scanned(h as real / 100.0, |FormatHundredths(h)|)
  {
    var a := if h < 0 then -h else h;
    Cents(a);
    ScanParts(Digits(a / 100), CentsOf(a), rest);
    CentsValue(a);
    AfterSign(if h < 0 then '-' else '+', Digits(a / 100) + "." + CentsOf(a), rest);
  }

  /** Small numbers print with an exponent, which reads back too. */
  lemma ScientificReads(a: string, b: string, tail: string, s: string, m: Scanned, e: Exponent)
    requires AllDigits(a) && AllDigits(b) && a != [] && b != [] && tail == ['e', '-'] + b && s == a + tail
    requires m == Scanned(ValueOf(a) as real, |a|) && e == Exponent(-(ValueOf(b) as int), |tail|)
    ensures Scan(s) == Scanned(Shifted(m.value, 10, e.value), m.length + e.length) && Scan(s).length == |s|
  {
    WholeMantissa(a, tail);
    ExponentIs(tail, "e-", b, "eE");
    DigitsFirst(a, tail);
    WithExponent(m, s, tail, e);
  }

  lemma DigitsFirst(a: string, tail: string)
    requires AllDigits(a) && a != []
    ensures Scan(a + tail) == ScanUnsigned(a + tail) && (a + tail)[|a|..] == tail
  {
    assert IsDigit((a + tail)[0]);
  }

  lemma WithExponent(m: Scanned, s: string, tail: string, e: Exponent)
    requires 0 < m.length <= |s| && s[m.length..] == tail && e == ExponentAt(tail, "eE")
    ensures Exponentiated(m, s, "eE", 10) == Scanned(Shifted(m.value, 10, e.value), m.length + e.length)
  {
  }

  lemma WholeMantissa(a: string, tail: string)
    requires AllDigits(a) && (tail != [] ==> !IsDigit(tail[0]) && tail[0] != '.')
    ensures Mantissa(a + tail) == Scanned(ValueOf(a) as real, |a|)
  {
    LeadingDigitsOf(a, tail);
    assert (a + tail)[..|a|] == a;
  }

  lemma AfterSign(c: char, u: string, rest: string)
    ensures ([c] + u + rest)[0] == c && ([c] + u + rest)[1..] == u + rest
  {
  }

  lemma CentsValue(a: nat)
    requires AllDigits(CentsOf(a))
    ensures Decimal(Digits(a / 100), CentsOf(a)) == a as real / 100.0
  {
    DigitsRoundTrip(a / 100);
    Cents(a);
    InHundredths(a / 100, a % 100, a);
  }

  lemma InHundredths(whole: nat, cents: nat, a: nat)
    requires a == 100 * whole + cents
    ensures whole as real + cents as real / 100.0 == a as real / 100.0
  {
  }

  lemma Cents(a: nat)
    ensures AllDigits(CentsOf(a)) && ValueOf(CentsOf(a)) == a % 100 && Power(10, |CentsOf(a)|) == 100
  {
    ValueSnoc([], a % 100 / 10);
    assert [] + [DigitChar(a % 100 / 10)] == [DigitChar(a % 100 / 10)];
    ValueSnoc([DigitChar(a % 100 / 10)], a % 10);
    assert [DigitChar(a % 100 / 10)] + [DigitChar(a % 10)] == [DigitChar(a % 100 / 10), DigitChar(a % 10)];
    assert Power(10, 2) == 10 * Power(10, 1) && Power(10, 1) == 10 * Power(10, 0);
  }
}
