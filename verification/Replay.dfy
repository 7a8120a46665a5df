/** Saved and replayed times: the record format, and the state that all processes of one faketime session share
    under a semaphore, so that each load or tick is one atomic step. */
module Replay {
  import opened Bits
  import opened TimeOps
  import opened FakeClock

  // ---- the record format ----------------------------------------------------------------------------------

  const TWO63 := 0x8000_0000_0000_0000
  const TWO64 := 0x1_0000_0000_0000_0000
  const RECORD_SIZE := 16

  /** Two's complement in 64 bits. */
  function Unsigned(x: int): (n: nat)
    requires -TWO63 <= x < TWO63
    ensures n < TWO64 && Signed(n) == x
  {
    if x < 0 then x + TWO64 else x
  }

  function Signed(n: nat): int {
    if n >= TWO63 then n - TWO64 else n
  }

  function Pow256(k: nat): nat {
    if k == 0 then 1 else 256 * Pow256(k - 1)
  }

  function BigEndian(n: nat, k: nat): (bs: seq<byte>)
    ensures |bs| == k
  {
    if k == 0 then [] else BigEndian(n / 256, k - 1) + [(n % 256) as byte]
  }

  function FromBigEndian(bs: seq<byte>): nat {
    if bs == [] then 0 else 256 * FromBigEndian(bs[..|bs| - 1]) + bs[|bs| - 1] as nat
  }

  lemma {:induction false} BigEndianRoundTrip(n: nat, k: nat)
    requires n < Pow256(k)
    ensures FromBigEndian(BigEndian(n, k)) == n
  {
    if k > 0 {
      BigEndianRoundTrip(n / 256, k - 1);
      assert BigEndian(n, k)[..k - 1] == BigEndian(n / 256, k - 1);
    }
  }

  lemma EightBytes()
    ensures Pow256(8) == TWO64
  {
    assert Pow256(4) == 0x1_0000_0000;
  }

  /** Both parts fit the 64 bits they are stored in. */
  predicate Storable(t: Ts) {
    -TWO63 <= t.sec < TWO63 && -TWO63 <= t.frac < TWO63
  }

  /** htobe64 on both parts. */
  function Encode(t: Ts): (bs: seq<byte>)
    requires Storable(t)
    ensures |bs| == RECORD_SIZE
  {
    BigEndian(Unsigned(t.sec), 8) + BigEndian(Unsigned(t.frac), 8)
  }

  /** timespec_from_saved. */
  function Decode(bs: seq<byte>): Ts
    requires |bs| == RECORD_SIZE
  {
    Ts(Signed(FromBigEndian(bs[..8])), Signed(FromBigEndian(bs[8..])))
  }

  lemma RecordRoundTrip(t: Ts)
    requires Storable(t)
    ensures Decode(Encode(t)) == t
  {
    EightBytes();
    BigEndianRoundTrip(Unsigned(t.sec), 8);
    BigEndianRoundTrip(Unsigned(t.frac), 8);
    assert Encode(t)[..8] == BigEndian(Unsigned(t.sec), 8) && Encode(t)[8..] == BigEndian(Unsigned(t.frac), 8);
  }

  lemma DividedTwice(n: int, p: nat)
    requires p > 0
    ensures n / 256 / p == n / (256 * p)
  {
    var q, r := n / 256 / p, n / 256 % p;
    assert n / 256 == q * p + r && n == 256 * (n / 256) + n % 256;
    assert n == q * (256 * p) + (256 * r + n % 256);
    DivModUnique(n, 256 * p, q, 256 * r + n % 256);
  }

  lemma {:induction false} BigEndianAt(n: nat, k: nat, i: nat)
    requires i < k
    ensures Pow256(k - 1 - i) > 0 && BigEndian(n, k)[i] as int == n / Pow256(k - 1 - i) % 256
  {
    if i < k - 1 {
      BigEndianAt(n / 256, k - 1, i);
      DividedTwice(n, Pow256(k - 2 - i));
    }
  }

  /** Multiples of 256 in the quotient do not show in the remainder. */
  lemma BorrowedByte(x: int, p: nat, c: nat)
    requires p > 0
    ensures (x + 256 * c * p) / p % 256 == x / p % 256
  {
    var q, r := x / p, x % p;
    assert x == q * p + r;
    assert x + 256 * c * p == (q + 256 * c) * p + r;
    DivModUnique(x + 256 * c * p, p, q + 256 * c, r);
    assert q == (q / 256) * 256 + q % 256;
    DivModUnique(q + 256 * c, 256, q / 256 + c, q % 256);
  }

  lemma {:induction false} Pow256Splits(a: nat, b: nat)
    ensures Pow256(a + b) == Pow256(a) * Pow256(b) && Pow256(a) > 0
  {
    if a > 0 {
      Pow256Splits(a - 1, b);
    }
  }

  lemma PartBytes(x: int, i: nat)
    requires -TWO63 <= x < TWO63 && i < 8
    ensures Pow256(7 - i) > 0 && BigEndian(Unsigned(x), 8)[i] as int == x / Pow256(7 - i) % 256
  {
    BigEndianAt(Unsigned(x), 8, i);
    if x < 0 {
      Pow256Splits(i, 7 - i);
      Pow256Splits(1, 7);
      EightBytes();
      WrappedAround(x, i, Pow256(7 - i));
    }
  }

  lemma WrappedAround(x: int, i: nat, p: nat)
    requires p > 0 && 256 * (Pow256(i) * p) == TWO64
    ensures (x + TWO64) / p % 256 == x / p % 256
  {
    BorrowedByte(x, p, Pow256(i));
    assert 256 * Pow256(i) * p == 256 * (Pow256(i) * p);
  }

  /** A stored record is the seconds and then the nanoseconds, each as eight bytes with the highest first: a byte is
      the part's quotient by the power of 256 that belongs to its place, rounded down for negative parts as two's
      complement has it. */
  lemma RecordBytes(t: Ts, i: nat)
    requires Storable(t) && i < 8
    ensures Pow256(7 - i) > 0
    ensures Encode(t)[i] as int == t.sec / Pow256(7 - i) % 256
    ensures Encode(t)[8 + i] as int == t.frac / Pow256(7 - i) % 256
  {
    PartBytes(t.sec, i);
    PartBytes(t.frac, i);
  }

  /** At least one record and no broken one; anything else ends the program at start. */
  predicate Loadable(file: seq<byte>) {
    |file| >= RECORD_SIZE && |file| % RECORD_SIZE == 0
  }

  function RecordAt(file: seq<byte>, k: nat): Ts
    requires RECORD_SIZE * (k + 1) <= |file|
  {
    Decode(file[RECORD_SIZE * k..RECORD_SIZE * (k + 1)])
  }

  function Records(file: seq<byte>): (ts: seq<Ts>)
    requires |file| % RECORD_SIZE == 0
    ensures |ts| == |file| / RECORD_SIZE
  {
    seq(|file| / RECORD_SIZE, k requires 0 <= k < |file| / RECORD_SIZE => RecordAt(file, k))
  }

  function Last(file: seq<byte>): Ts
    requires Loadable(file)
  {
    RecordAt(file, |file| / RECORD_SIZE - 1)
  }

  /** The file that saving these times one after the other leaves. */
  function Saved(ts: seq<Ts>): (file: seq<byte>)
    requires forall k | 0 <= k < |ts| :: Storable(ts[k])
    ensures |file| == RECORD_SIZE * |ts|
  {
    if ts == [] then [] else Saved(ts[..|ts| - 1]) + Encode(ts[|ts| - 1])
  }

  lemma {:induction false} SavedAt(ts: seq<Ts>, k: nat)
    requires (forall k | 0 <= k < |ts| :: Storable(ts[k])) && k < |ts|
    ensures RecordAt(Saved(ts), k) == ts[k]
  {
    var n := |ts| - 1;
    var file, before := Saved(ts), Saved(ts[..n]);
    if k == n {
      assert file[RECORD_SIZE * k..RECORD_SIZE * (k + 1)] == Encode(ts[n]);
      RecordRoundTrip(ts[n]);
    } else {
      SavedAt(ts[..n], k);
      assert RECORD_SIZE * (k + 1) <= |before|;
      assert file[RECORD_SIZE * k..RECORD_SIZE * (k + 1)] == before[RECORD_SIZE * k..RECORD_SIZE * (k + 1)];
    }
  }

  /** Reading back a file gives exactly the times saved, in the order they were saved. */
  lemma SavedRoundTrip(ts: seq<Ts>)
    requires forall k | 0 <= k < |ts| :: Storable(ts[k])
    ensures Records(Saved(ts)) == ts
  {
    var file := Saved(ts);
    assert |file| / RECORD_SIZE == |ts|;
    forall k | 0 <= k < |ts|
      ensures RecordAt(file, k) == ts[k]
    {
      SavedAt(ts, k);
    }
    RecordsAre(file, ts);
  }

  lemma RecordsAre(file: seq<byte>, ts: seq<Ts>)
    requires |file| == RECORD_SIZE * |ts| && forall k | 0 <= k < |ts| :: RecordAt(file, k) == ts[k]
    ensures Records(file) == ts
  {
  }

  // ---- one step of one process ----------------------------------------------------------------------------

  datatype Proc = Proc(infileSet: bool, base: Ts, start: Clocks)

  /** load_time: hand out the next record, or, when there is none left, leave replay for the last record's time. */
  function Loaded(file: seq<byte>, sh: Shared, pr: Proc, system: Clocks): (Shared, Proc)
    requires pr.infileSet ==> Loadable(file)
  {
    if !pr.infileSet then (sh, pr)
    else if RECORD_SIZE * (sh.fileIdx + 1) > |file| then
      if sh.ticks == 0 then (sh.(ticks := 1, startTime := system), Proc(false, Last(file), system))
      else (sh, Proc(false, Last(file), sh.startTime))
    else (sh.(fileIdx := sh.fileIdx + 1), pr)
  }

  /** The start times that processes starting one after the other settle on, from what the clocks show to each. */
  function Starts(sh: Shared, systems: seq<Clocks>): (starts: seq<Clocks>)
    ensures |starts| == |systems|
    decreases |systems|
  {
    if systems == [] then []
    else
      var (sh', start) := Settled(sh, systems[0]);
      [start] + Starts(sh', systems[1..])
  }

  /** All processes of a session have the start time of the first. */
  lemma OneStartTime(sh: Shared, systems: seq<Clocks>, k: nat)
    requires sh.startTime.realtime.frac == -1 && k < |systems| && systems[0].realtime.frac >= 0
    ensures Starts(sh, systems)[k] == systems[0]
  {
    if k > 0 {
      Preset(sh.(startTime := systems[0]), systems[1..], k - 1);
    }
  }

  lemma {:induction false} Preset(sh: Shared, systems: seq<Clocks>, k: nat)
    requires sh.startTime.realtime.frac >= 0 && k < |systems|
    ensures Starts(sh, systems)[k] == sh.startTime
    decreases k
  {
    if k > 0 {
      Preset(sh, systems[1..], k - 1);
    }
  }

  predicate HandsOut(file: seq<byte>, sh: Shared, pr: Proc) {
    pr.infileSet && RECORD_SIZE * (sh.fileIdx + 1) <= |file|
  }

  // ---- the library's statics ------------------------------------------------------------------------------

  class OutFile {
    var contents: seq<byte>

    /** save_time: one whole record at the end of the file. */
    method SaveTime(tp: Timespec)
      requires Storable(tp.Value())
      modifies this
      ensures contents == old(contents) + Encode(tp.Value())
      ensures forall ts: seq<Ts> | (forall k | 0 <= k < |ts| :: Storable(ts[k])) && old(contents) == Saved(ts) ::
                contents == Saved(ts + [tp.Value()])
    {
      var timeWrite := BigEndian(Unsigned(tp.sec), 8) + BigEndian(Unsigned(tp.frac), 8);
      contents := contents + timeWrite;
      forall ts: seq<Ts> | (forall k | 0 <= k < |ts| :: Storable(ts[k])) && old(contents) == Saved(ts)
        ensures contents == Saved(ts + [tp.Value()])
      {
        assert (ts + [tp.Value()])[..|ts|] == ts;
      }
    }
  }

  class Process {
    const shared: SharedMemory
    const infile: seq<byte>
    var infileSet: bool
    var userFakedTime: Ts
    var starttime: Clocks

    /** ftpl_init; `infileSet` says whether FAKETIME_LOAD_FILE names a file to replay. */
    constructor (shared: SharedMemory, infileSet: bool, infile: seq<byte>, base: Ts, start: Clocks)
      requires infileSet ==> Loadable(infile)
      ensures this.shared == shared && this.infile == infile && State() == Proc(infileSet, base, start)
    {
      this.shared, this.infile, this.infileSet, userFakedTime, starttime := shared, infile, infileSet, base, start;
    }

    function State(): Proc
      reads this
    {
      Proc(infileSet, userFakedTime, starttime)
    }

    /** load_time; the result says whether `tp` has been set from the file. `system` is what the clocks show if they
        are asked. */
    method LoadTime(tp: Timespec, system: Clocks) returns (ret: bool)
      requires infileSet ==> Loadable(infile)
      modifies this, shared, tp
      ensures (shared.State(), State()) == Loaded(infile, old(shared.State()), old(State()), system)
      ensures ret <==> HandsOut(infile, old(shared.State()), old(State()))
      ensures tp.Value() == if ret then RecordAt(infile, old(shared.fileIdx)) else old(tp.Value())
    {
      ret := false;
      if infileSet {
        if RECORD_SIZE * (shared.fileIdx + 1) > |infile| {
          userFakedTime := RecordAt(infile, |infile| / RECORD_SIZE - 1);
          if shared.ticks == 0 {
            shared.ticks := 1;
            starttime := system;
            shared.startTime := starttime;
          } else {
            starttime := shared.startTime;
          }
          infileSet := false;
        } else {
          tp.Set(RecordAt(infile, shared.fileIdx));
          shared.fileIdx := shared.fileIdx + 1;
          ret := true;
        }
      }
    }

    /** next_time. */
    method NextTime(tp: Timespec, ticklen: Timespec)
      modifies shared, tp
      ensures tp.Value() == TickTime(userFakedTime, old(shared.ticks), old(ticklen.Value()))
      ensures shared.State() == old(shared.State()).(ticks := old(shared.ticks) + 1)
    {
      shared.NextTime(userFakedTime, tp, ticklen);
    }
  }

  // ---- any interleaving of any number of processes --------------------------------------------------------

  datatype Event = Load(p: nat, system: Clocks) | Tick(p: nat)

  /** A tick shown: the base the process had then, and the time. */
  datatype Shown = Shown(base: Ts, t: Ts)

  datatype World = World(shared: Shared, procs: seq<Proc>, handed: seq<Ts>, shown: seq<Shown>)

  /** next_time is reached only once load_time has nothing to give. */
  predicate Enabled(w: World, e: Event) {
    e.p < |w.procs| && (e.Tick? ==> !w.procs[e.p].infileSet)
  }

  function Next(file: seq<byte>, inc: Ts, w: World, e: Event): World
    requires Loadable(file) && Enabled(w, e)
  {
    var pr := w.procs[e.p];
    match e
    case Load(p, system) =>
      var (sh, pr') := Loaded(file, w.shared, pr, system);
      w.(shared := sh, procs := w.procs[p := pr'],
         handed := if HandsOut(file, w.shared, pr) then w.handed + [RecordAt(file, w.shared.fileIdx)] else w.handed)
    case Tick(p) =>
      w.(shared := w.shared.(ticks := w.shared.ticks + 1),
         shown := w.shown + [Shown(pr.base, TickTime(pr.base, w.shared.ticks, inc))])
  }

  /** Processes that replay and processes that do not, with normalised base times, before anything has happened. */
  predicate Fresh(w: World) {
    && w.shared.ticks == 0 && w.shared.fileIdx == 0 && w.handed == [] && w.shown == []
    && forall p | 0 <= p < |w.procs| :: Normal(w.procs[p].base, NS)
  }

  ghost predicate Runs(file: seq<byte>, inc: Ts, w: World, es: seq<Event>)
    requires Loadable(file)
    decreases |es|, 0
  {
    es == [] || (Runs(file, inc, w, Past(es)) && Enabled(Reach(file, inc, w, Past(es)), Latest(es)))
  }

  ghost function Reach(file: seq<byte>, inc: Ts, w: World, es: seq<Event>): World
    requires Loadable(file) && Runs(file, inc, w, es)
    decreases |es|, 1
  {
    if es == [] then w else Next(file, inc, Reach(file, inc, w, Past(es)), Latest(es))
  }

  function Past(es: seq<Event>): (r: seq<Event>)
    requires es != []
    ensures |r| == |es| - 1
  {
    es[..|es| - 1]
  }

  function Latest(es: seq<Event>): Event
    requires es != []
  {
    es[|es| - 1]
  }

  // ---- records --------------------------------------------------------------------------------------------

  /** The records handed out so far are the first ones of the file. */
  ghost predicate InOrder(file: seq<byte>, w: World)
    requires Loadable(file)
  {
    w.shared.fileIdx <= |Records(file)| && w.handed == Records(file)[..w.shared.fileIdx]
  }

  /** Whichever processes load, together they are handed each record once, in file order. */
  lemma {:induction false} RecordsInOrder(file: seq<byte>, inc: Ts, w: World, es: seq<Event>)
    requires Loadable(file) && Fresh(w) && Runs(file, inc, w, es)
    ensures InOrder(file, Reach(file, inc, w, es))
  {
    if es != [] {
      RecordsInOrder(file, inc, w, Past(es));
      StepInOrder(file, inc, Reach(file, inc, w, Past(es)), Latest(es));
    }
  }

  lemma StepInOrder(file: seq<byte>, inc: Ts, v: World, e: Event)
    requires Loadable(file) && Enabled(v, e) && InOrder(file, v)
    ensures InOrder(file, Next(file, inc, v, e))
  {
    if e.Load? && HandsOut(file, v.shared, v.procs[e.p]) {
      var i := v.shared.fileIdx;
      assert Records(file)[..i + 1] == Records(file)[..i] + [Records(file)[i]];
    }
  }

  /** A process that has left replay has the last record for its base and the common start time; every other process
      is as it was. */
  ghost predicate Adopted(file: seq<byte>, w: World, v: World)
    requires Loadable(file)
  {
    && |v.procs| == |w.procs|
    && forall p | 0 <= p < |w.procs| ::
         if w.procs[p].infileSet && !v.procs[p].infileSet then
           v.shared.ticks > 0 && v.shared.fileIdx == |Records(file)|
           && v.procs[p] == Proc(false, Last(file), v.shared.startTime)
         else v.procs[p] == w.procs[p]
  }

  /** Replay ends for all processes alike: every record has been handed out, and all that have noticed go on from
      the last record with one start time. */
  lemma {:induction false} ReplayEndsAlike(file: seq<byte>, inc: Ts, w: World, es: seq<Event>)
    requires Loadable(file) && Fresh(w) && Runs(file, inc, w, es)
    ensures Adopted(file, w, Reach(file, inc, w, es))
  {
    if es != [] {
      ReplayEndsAlike(file, inc, w, Past(es));
      RecordsInOrder(file, inc, w, Past(es));
      StepAdopted(file, inc, w, Reach(file, inc, w, Past(es)), Latest(es));
    }
  }

  lemma StepAdopted(file: seq<byte>, inc: Ts, w: World, v: World, e: Event)
    requires Loadable(file) && Enabled(v, e) && InOrder(file, v) && Adopted(file, w, v)
    ensures Adopted(file, w, Next(file, inc, v, e))
  {
    if e.Load? && v.procs[e.p].infileSet {
      assert v.procs[e.p] == w.procs[e.p];
      assert RECORD_SIZE * (v.shared.fileIdx + 1) > |file| <==> v.shared.fileIdx == |Records(file)|;
    }
  }

  /** Some process has left replay. */
  predicate SomeLeft(w: World) {
    exists p | 0 <= p < |w.procs| :: !w.procs[p].infileSet
  }

  /** When every process replays the file. */
  predicate AllReplay(w: World) {
    forall p | 0 <= p < |w.procs| :: w.procs[p].infileSet
  }

  /** Event k is the first at which a process finds no record left. */
  ghost predicate NoticesAt(file: seq<byte>, inc: Ts, w: World, es: seq<Event>, k: nat)
    requires Loadable(file) && k < |es|
  {
    && Runs(file, inc, w, es[..k]) && es[k].Load?
    && var v := Reach(file, inc, w, es[..k]);
       AllReplay(v) && v.shared.fileIdx == |Records(file)| && v.handed == Records(file)
  }

  /** The first process to find no record left looks at its clocks, and what they show then is the start time of all
      that leave replay. */
  lemma {:induction false} FirstToNotice(file: seq<byte>, inc: Ts, w: World, es: seq<Event>) returns (k: nat)
    requires Loadable(file) && Fresh(w) && AllReplay(w) && Runs(file, inc, w, es)
    requires SomeLeft(Reach(file, inc, w, es))
    ensures k < |es| && NoticesAt(file, inc, w, es, k)
    ensures var v := Reach(file, inc, w, es);
            && v.shared.startTime == es[k].system
            && forall p | 0 <= p < |v.procs| && !v.procs[p].infileSet :: v.procs[p].start == es[k].system
  {
    var before, v := Past(es), Reach(file, inc, w, Past(es));
    ReplayEndsAlike(file, inc, w, es);
    ReplayEndsAlike(file, inc, w, before);
    RecordsInOrder(file, inc, w, before);
    if SomeLeft(v) {
      k := FirstToNotice(file, inc, w, before);
      assert before[..k] == es[..k];
      StartStays(file, inc, w, v, Latest(es));
    } else {
      k := |es| - 1;
      assert es[..k] == before;
      NoTicksYet(file, inc, w, before);
      Notices(file, inc, v, Latest(es));
    }
  }

  lemma StartStays(file: seq<byte>, inc: Ts, w: World, v: World, e: Event)
    requires Loadable(file) && Enabled(v, e) && AllReplay(w) && Adopted(file, w, v) && SomeLeft(v)
    ensures Next(file, inc, v, e).shared.startTime == v.shared.startTime
  {
    var p :| 0 <= p < |v.procs| && !v.procs[p].infileSet;
    assert w.procs[p].infileSet;
  }

  lemma Notices(file: seq<byte>, inc: Ts, v: World, e: Event)
    requires Loadable(file) && Enabled(v, e) && AllReplay(v) && InOrder(file, v) && v.shared.ticks == 0
    requires SomeLeft(Next(file, inc, v, e))
    ensures e.Load? && v.shared.fileIdx == |Records(file)| && v.handed == Records(file)
    ensures Next(file, inc, v, e).shared.startTime == e.system
  {
    assert RECORD_SIZE * (v.shared.fileIdx + 1) > |file| <==> v.shared.fileIdx == |Records(file)|;
  }

  /** Nobody ticks while all replay. */
  lemma {:induction false} NoTicksYet(file: seq<byte>, inc: Ts, w: World, es: seq<Event>)
    requires Loadable(file) && Fresh(w) && Runs(file, inc, w, es) && AllReplay(Reach(file, inc, w, es))
    ensures Reach(file, inc, w, es).shared.ticks == 0
  {
    if es != [] {
      StillReplaying(file, inc, Reach(file, inc, w, Past(es)), Latest(es));
      NoTicksYet(file, inc, w, Past(es));
    }
  }

  lemma StillReplaying(file: seq<byte>, inc: Ts, v: World, e: Event)
    requires Loadable(file) && Enabled(v, e) && AllReplay(Next(file, inc, v, e))
    ensures AllReplay(v) && Next(file, inc, v, e).shared.ticks == v.shared.ticks
  {
    var r := Next(file, inc, v, e);
    assert r.procs[e.p].infileSet;
    forall p | 0 <= p < |v.procs|
      ensures v.procs[p].infileSet
    {
      assert r.procs[p].infileSet;
    }
  }

  // ---- ticks ----------------------------------------------------------------------------------------------

  /** The number of the first tick shown: 1 when the end of replay came first, otherwise 0. */
  function FirstTick(w: World): int {
    w.shared.ticks - |w.shown|
  }

  ghost predicate Progression(inc: Ts, w: World) {
    && 0 <= FirstTick(w) <= 1
    && forall k | 0 <= k < |w.shown| :: OnTick(inc, w.shown[k], FirstTick(w) + k)
  }

  predicate OnTick(inc: Ts, s: Shown, k: int) {
    Ns(s.t) == Ns(s.base) + k * Ns(inc)
  }

  /** All ticks shown, by whichever processes, count up by one each time: none is repeated and none is skipped. */
  lemma {:induction false} TicksProgress(file: seq<byte>, inc: Ts, w: World, es: seq<Event>)
    requires Loadable(file) && Normal(Last(file), NS) && Fresh(w) && Runs(file, inc, w, es)
    ensures Progression(inc, Reach(file, inc, w, es))
  {
    if es != [] {
      TicksProgress(file, inc, w, Past(es));
      ReplayEndsAlike(file, inc, w, Past(es));
      StepProgress(file, inc, w, Reach(file, inc, w, Past(es)), Latest(es));
    }
  }

  lemma StepProgress(file: seq<byte>, inc: Ts, w: World, v: World, e: Event)
    requires Loadable(file) && Normal(Last(file), NS) && Fresh(w) && Adopted(file, w, v)
    requires Enabled(v, e) && Progression(inc, v)
    ensures Progression(inc, Next(file, inc, v, e))
  {
    var r := Next(file, inc, v, e);
    if e.Tick? {
      assert Normal(w.procs[e.p].base, NS);
      TickExact(v.procs[e.p].base, v.shared.ticks, inc);
      assert OnTick(inc, r.shown[|v.shown|], FirstTick(r) + |v.shown|);
      assert forall k | 0 <= k < |v.shown| :: r.shown[k] == v.shown[k];
    }
  }

  /** When no process replays, the first tick is tick 0. */
  lemma {:induction false} TicksFromZero(file: seq<byte>, inc: Ts, w: World, es: seq<Event>)
    requires Loadable(file) && Fresh(w) && Runs(file, inc, w, es)
    requires forall p | 0 <= p < |w.procs| :: !w.procs[p].infileSet
    ensures FirstTick(Reach(file, inc, w, es)) == 0
  {
    if es != [] {
      TicksFromZero(file, inc, w, Past(es));
      ReplayEndsAlike(file, inc, w, Past(es));
    }
  }

  ghost predicate TicksAfterReplay(file: seq<byte>, v: World)
    requires Loadable(file)
  {
    v.shown != [] ==>
      FirstTick(v) == 1 && v.shared.fileIdx == |Records(file)|
      && forall k | 0 <= k < |v.shown| :: v.shown[k].base == Last(file)
  }

  lemma {:induction false} TicksComeAfter(file: seq<byte>, inc: Ts, w: World, es: seq<Event>)
    requires Loadable(file) && Normal(Last(file), NS) && Fresh(w) && AllReplay(w) && Runs(file, inc, w, es)
    ensures TicksAfterReplay(file, Reach(file, inc, w, es))
  {
    if es != [] {
      TicksComeAfter(file, inc, w, Past(es));
      RecordsInOrder(file, inc, w, Past(es));
      ReplayEndsAlike(file, inc, w, Past(es));
      TicksProgress(file, inc, w, Past(es));
      StepAfter(file, inc, w, Reach(file, inc, w, Past(es)), Latest(es));
    }
  }

  lemma StepAfter(file: seq<byte>, inc: Ts, w: World, v: World, e: Event)
    requires Loadable(file) && AllReplay(w) && Adopted(file, w, v) && InOrder(file, v)
    requires Enabled(v, e) && Progression(inc, v) && TicksAfterReplay(file, v)
    ensures TicksAfterReplay(file, Next(file, inc, v, e))
  {
    var r := Next(file, inc, v, e);
    if e.Tick? {
      assert w.procs[e.p].infileSet;
      assert forall k | 0 <= k < |v.shown| :: r.shown[k] == v.shown[k];
    }
  }

  lemma SessionOf(file: seq<byte>, inc: Ts, w: World, es: seq<Event>, v: World)
    requires Loadable(file) && Normal(Last(file), NS) && Fresh(w) && AllReplay(w) && Runs(file, inc, w, es)
    requires v == Reach(file, inc, w, es)
    ensures |v.handed| <= |Records(file)| && v.handed == Records(file)[..|v.handed|]
    ensures v.shown != [] ==> |v.handed| == |Records(file)|
    ensures forall k | 0 <= k < |v.shown| :: OnTick(inc, v.shown[k], k + 1) && v.shown[k].base == Last(file)
  {
    RecordsInOrder(file, inc, w, es);
    TicksProgress(file, inc, w, es);
    TicksComeAfter(file, inc, w, es);
    forall k | 0 <= k < |v.shown|
      ensures OnTick(inc, v.shown[k], k + 1)
    {
      assert OnTick(inc, v.shown[k], FirstTick(v) + k);
    }
  }

  /** A whole session that saves some times, replays them and goes on ticking: the processes together are given
      back exactly the saved times in order, and only then the last saved time plus 1, 2, 3, ... increments. */
  lemma SessionReplays(ts: seq<Ts>, file: seq<byte>, inc: Ts, w: World, es: seq<Event>)
    requires ts != [] && (forall k | 0 <= k < |ts| :: Storable(ts[k]) && Normal(ts[k], NS)) && file == Saved(ts)
    requires Fresh(w) && AllReplay(w) && Runs(file, inc, w, es)
    ensures var v := Reach(file, inc, w, es);
            && |v.handed| <= |ts| && v.handed == ts[..|v.handed|]
            && (v.shown != [] ==> v.handed == ts)
            && forall k | 0 <= k < |v.shown| :: Ns(v.shown[k].t) == Ns(ts[|ts| - 1]) + (k + 1) * Ns(inc)
  {
    LastSaved(ts, file);
    SessionOf(file, inc, w, es, Reach(file, inc, w, es));
  }

  lemma LastSaved(ts: seq<Ts>, file: seq<byte>)
    requires ts != [] && (forall k | 0 <= k < |ts| :: Storable(ts[k])) && file == Saved(ts)
    ensures Loadable(file) && Records(file) == ts && Last(file) == ts[|ts| - 1]
  {
    SavedRoundTrip(ts);
    SavedAt(ts, |ts| - 1);
  }
}
