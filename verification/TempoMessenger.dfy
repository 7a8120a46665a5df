/** The wire format of the daemons' messages: five fields joined by bars, the signal as its number. */
module TempoMessenger {
  import opened TempoNode
  import opened Text
  import Seqs

  /** What a message dictionary may hold. A fraction carries the text it prints as. */
  datatype Value = Str(s: string) | Whole(n: nat) | Fraction(x: real, shown: string)

  type Data = map<string, Value>

  const KEYS: seq<string> := ["signal", "ip_address", "port", "timestamp", "adj_seconds"]

  function Number(s: Signal): (n: nat)
    ensures 1 <= n <= 15
  {
    match s
    case ACK => 1
    case LEADERREQ => 2
    case LEADERACK => 3
    case LEADERUP => 4
    case FOLLOWERUP => 5
    case ELECTION => 6
    case REFUSE => 7
    case ACCEPT => 8
    case SYNCREQ => 9
    case SYNCRESP => 10
    case CONFLICT => 11
    case RESOLVE => 12
    case QUIT => 13
    case CLOCKREQ => 14
    case CLOCKRESP => 15
  }

  const SIGNALS: seq<Signal> :=
    [ACK, LEADERREQ, LEADERACK, LEADERUP, FOLLOWERUP, ELECTION, REFUSE, ACCEPT, SYNCREQ, SYNCRESP, CONFLICT, RESOLVE,
     QUIT, CLOCKREQ, CLOCKRESP]

  lemma NumberRoundTrip(s: Signal)
    ensures SIGNALS[Number(s) - 1] == s
  {
    match s
    case ACK =>
    case _ =>
  }

  /** The signals as they stand at the front of a message. */
  lemma SignalTexts()
    ensures Digits(Number(ACK)) == "1" && Digits(Number(LEADERREQ)) == "2" && Digits(Number(LEADERACK)) == "3"
    ensures Digits(Number(LEADERUP)) == "4" && Digits(Number(FOLLOWERUP)) == "5" && Digits(Number(ELECTION)) == "6"
    ensures Digits(Number(REFUSE)) == "7" && Digits(Number(ACCEPT)) == "8" && Digits(Number(SYNCREQ)) == "9"
    ensures Digits(Number(SYNCRESP)) == "10" && Digits(Number(CONFLICT)) == "11" && Digits(Number(RESOLVE)) == "12"
    ensures Digits(Number(QUIT)) == "13" && Digits(Number(CLOCKREQ)) == "14" && Digits(Number(CLOCKRESP)) == "15"
  {
  }

  function Shown(v: Value): string {
    match v
    case Str(s) => s
    case Whole(n) => Digits(n)
    case Fraction(_, shown) => shown
  }

  predicate Falsy(v: Value) {
    match v
    case Str(s) => s == ""
    case Whole(n) => n == 0
    case Fraction(x, _) => x == 0.0
  }

  /** str(data.get(key) or ""): an absent value, an empty text and a zero all become the empty field. */
  function Field(data: Data, key: string): string {
    if key in data && !Falsy(data[key]) then Shown(data[key]) else ""
  }

  /** The signal is replaced by its number before the fields are written. */
  function Outgoing(data: Data, signal: Signal): Data {
    data["signal" := Whole(Number(signal))]
  }

  function Fields(data: Data, signal: Signal): (fs: seq<string>)
    ensures |fs| == |KEYS|
  {
    seq(|KEYS|, k requires 0 <= k < |KEYS| => Field(Outgoing(data, signal), KEYS[k]))
  }

  function Format(data: Data, signal: Signal): string {
    Join(Fields(data, signal), '|')
  }

  datatype Parsed = Malformed | Parsed(signal: Signal, fields: map<string, string>)

  /** Pair keys with parts, as far as both go. */
  function Zip(keys: seq<string>, parts: seq<string>): map<string, string> {
    if keys == [] || parts == [] then map[] else Zip(keys[1..], parts[1..])[keys[0] := parts[0]]
  }

  /** Signal(int(text)). */
  function Parse(s: string): Parsed {
    var parts := Split(s, '|');
    if parts[0] == "" || !AllDigits(parts[0]) then Malformed
    else
      var n := ValueOf(parts[0]);
      if 1 <= n <= |SIGNALS| then Parsed(SIGNALS[n - 1], Zip(KEYS, parts)) else Malformed
  }

  /** A text is a message exactly when it begins, before the first bar, with the number of a signal; that is the signal
      it carries. */
  lemma ParsesExactly(s: string)
    ensures var first := Split(s, '|')[0];
            Parse(s).Parsed? <==> first != "" && AllDigits(first) && 1 <= ValueOf(first) <= 15
    ensures Parse(s).Parsed? ==>
              AllDigits(Split(s, '|')[0]) && Number(Parse(s).signal) == ValueOf(Split(s, '|')[0])
  {
    if Parse(s).Parsed? {
      NumberOf(ValueOf(Split(s, '|')[0]));
    }
  }

  lemma NumberOf(n: nat)
    requires 1 <= n <= |SIGNALS|
    ensures Number(SIGNALS[n - 1]) == n
  {
  }

  lemma KeysDistinct()
    ensures Seqs.NoDup(KEYS)
  {
    assert |KEYS[0]| == 6 && |KEYS[1]| == 10 && |KEYS[2]| == 4 && |KEYS[3]| == 9 && |KEYS[4]| == 11;
  }

  lemma {:induction false} ZipAt(keys: seq<string>, parts: seq<string>, k: nat)
    requires k < |keys| && Seqs.NoDup(keys)
    ensures keys[k] in Zip(keys, parts) <==> k < |parts|
    ensures k < |parts| ==> Zip(keys, parts)[keys[k]] == parts[k]
  {
    if parts != [] && k > 0 {
      ZipAt(keys[1..], parts[1..], k - 1);
      assert keys[0] != keys[k];
    }
  }

  predicate BarFree(fs: seq<string>) {
    forall k | 0 <= k < |fs| :: '|' !in fs[k]
  }

  /** The receiver gets the signal, and under every other key the text of its value, the empty text standing for a
      value that is absent, empty or zero. */
  predicate Delivers(p: Parsed, data: Data, signal: Signal) {
    && p.Parsed? && p.signal == signal
    && forall k | 1 <= k < |KEYS| ::
         KEYS[k] in p.fields
         && p.fields[KEYS[k]] == if KEYS[k] in data && !Falsy(data[KEYS[k]]) then Shown(data[KEYS[k]]) else ""
  }

  lemma OtherFields(data: Data, signal: Signal, k: nat)
    requires 1 <= k < |KEYS|
    ensures Fields(data, signal)[k] == Field(data, KEYS[k])
  {
    KeysDistinct();
    assert KEYS[0] == "signal" && KEYS[k] != KEYS[0];
  }

  lemma SignalField(data: Data, signal: Signal)
    ensures Fields(data, signal)[0] == Digits(Number(signal)) && ValueOf(Digits(Number(signal))) == Number(signal)
  {
    DigitsRoundTrip(Number(signal));
    assert KEYS[0] == "signal";
  }

  /** The five fields in their places, between bars. */
  lemma WireLayout(data: Data, signal: Signal)
    ensures Format(data, signal)
         == Digits(Number(signal)) + "|" + Field(data, "ip_address") + "|" + Field(data, "port") + "|"
            + Field(data, "timestamp") + "|" + Field(data, "adj_seconds")
  {
    var fs := Fields(data, signal);
    SignalField(data, signal);
    OtherFields(data, signal, 1);
    OtherFields(data, signal, 2);
    OtherFields(data, signal, 3);
    OtherFields(data, signal, 4);
    assert fs == [fs[0], fs[1], fs[2], fs[3], fs[4]];
    JoinFive(fs[0], fs[1], fs[2], fs[3], fs[4]);
  }

  lemma JoinFive(a: string, b: string, c: string, d: string, e: string)
    ensures Join([a, b, c, d, e], '|') == a + "|" + b + "|" + c + "|" + d + "|" + e
  {
    assert Join([d, e], '|') == d + "|" + e;
    assert Join([c, d, e], '|') == c + "|" + Join([d, e], '|');
    assert Join([b, c, d, e], '|') == b + "|" + Join([c, d, e], '|');
  }

  lemma ZippedAt(parts: seq<string>, k: nat)
    requires 1 <= k < |KEYS|
    ensures KEYS[k] in Zip(KEYS, parts) <==> k < |parts|
    ensures k < |parts| ==> Zip(KEYS, parts)[KEYS[k]] == parts[k]
  {
    KeysDistinct();
    ZipAt(KEYS, parts, k);
  }

  /** Parsing parts that are the fields of a message. */
  lemma PartsDeliver(s: string, data: Data, signal: Signal)
    requires Split(s, '|') == Fields(data, signal)
    ensures Delivers(Parse(s), data, signal)
  {
    SignalField(data, signal);
    NumberRoundTrip(signal);
    forall k | 1 <= k < |KEYS|
      ensures KEYS[k] in Parse(s).fields && Parse(s).fields[KEYS[k]] == Field(data, KEYS[k])
    {
      OtherFields(data, signal, k);
      ZippedAt(Split(s, '|'), k);
    }
  }

  predicate Same(parts: seq<string>, fs: seq<string>) {
    forall k | 1 <= k < |fs| :: k < |parts| && fs[k] == parts[k]
  }

  lemma DeliveredParts(s: string, data: Data, signal: Signal)
    requires Delivers(Parse(s), data, signal)
    ensures Same(Split(s, '|'), Fields(data, signal))
  {
    var parts, fs := Split(s, '|'), Fields(data, signal);
    forall k | 1 <= k < |fs|
      ensures k < |parts| && fs[k] == parts[k]
    {
      OtherFields(data, signal, k);
      ZippedAt(parts, k);
    }
  }

  /** A message arrives as it was meant exactly when no field contains a bar. */
  lemma RoundTrip(data: Data, signal: Signal)
    ensures Delivers(Parse(Format(data, signal)), data, signal) <==> BarFree(Fields(data, signal))
  {
    if BarFree(Fields(data, signal)) {
      SplitJoin(Fields(data, signal), '|');
      PartsDeliver(Format(data, signal), data, signal);
    }
    if Delivers(Parse(Format(data, signal)), data, signal) {
      DeliveredParts(Format(data, signal), data, signal);
      JoinSplit(Format(data, signal), '|');
      SignalField(data, signal);
      BarFreeParts(Fields(data, signal), Split(Format(data, signal), '|'));
    }
  }

  lemma BarFreeParts(fs: seq<string>, parts: seq<string>)
    requires fs != [] && AllDigits(fs[0]) && Same(parts, fs)
    requires BarFree(parts)
    ensures BarFree(fs)
  {
  }
}
