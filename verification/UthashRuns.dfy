/** Whole histories of a table: whatever sequence of additions, ordered additions, replacements, deletions and
    sorts, with any number of expansions and of tables freed and rebuilt in between. */
module UthashRuns {
  import opened Bits
  import opened Seqs
  import opened UthashTypes
  import opened UthashSpec
  import opened UthashSort
  import opened UthashLaws

  datatype Op =
    | OpAdd(x: Item)
    | OpAddInOrder(x: Item, cmp: Comparator)
    | OpReplace(x: Item)
    | OpDelete(x: Item)
    | OpSort(cmp: Comparator)

  /** What the caller must see to: HASH_ADD does not look for the key, HASH_DELETE does not look for the item. */
  ghost predicate Allowed(s: seq<Item>, op: Op) {
    match op
    case OpAdd(x) => forall y | y in s :: y.key != x.key
    case OpAddInOrder(x, _) => forall y | y in s :: y.key != x.key
    case OpDelete(x) => x in s
    case OpReplace(_) => true
    case OpSort(_) => true
  }

  ghost function Apply(m: Model, h: HashFunction, op: Op): (r: Model)
    requires Valid(m, h) && Allowed(Items(m), op)
    ensures Valid(r, h)
  {
    match op
    case OpAdd(x) => AddValid(m, h, x); Add(m, h, x)
    case OpAddInOrder(x, cmp) => AddInOrderValid(m, h, cmp, x); AddInOrder(m, h, cmp, x)
    case OpReplace(x) => ReplaceValid(m, h, x); Replace(m, h, x)
    case OpDelete(x) => DeleteValid(m, h, x); Delete(m, h, x)
    case OpSort(cmp) => SortValid(m, h, cmp); Sort(m, cmp)
  }

  // ---- the dictionary the table stands for ----------------------------------------------------------------

  /** A finite map and a sequence of items, with no buckets anywhere. */
  datatype Dictionary = Dictionary(order: seq<Item>, lookup: map<Key, Item>)

  ghost function ApplyPlain(d: Dictionary, op: Op): Dictionary {
    match op
    case OpAdd(x) => Dictionary(d.order + [x], d.lookup[x.key := x])
    case OpAddInOrder(x, cmp) => Dictionary(InsertInOrder(cmp, d.order, x), d.lookup[x.key := x])
    case OpReplace(x) =>
      var present := x.key in d.lookup && d.lookup[x.key] in d.order;
      Dictionary((if present then Without(d.order, d.lookup[x.key]) else d.order) + [x], d.lookup[x.key := x])
    case OpDelete(x) =>
      Dictionary(if x in d.order then Without(d.order, x) else d.order, d.lookup - {x.key})
    case OpSort(cmp) => Dictionary(MergeSort(cmp, d.order), d.lookup)
  }

  ghost function RunPlain(ops: seq<Op>): Dictionary {
    if ops == [] then Dictionary([], map[]) else ApplyPlain(RunPlain(ops[..|ops| - 1]), ops[|ops| - 1])
  }

  ghost predicate RunAllowed(ops: seq<Op>) {
    ops == [] || (RunAllowed(ops[..|ops| - 1]) && Allowed(RunPlain(ops[..|ops| - 1]).order, ops[|ops| - 1]))
  }

  /** The map holds exactly the items of the sequence, under their keys. */
  ghost predicate Agrees(d: Dictionary) {
    && DistinctKeys(d.order)
    && (forall i | 0 <= i < |d.order| :: d.order[i].key in d.lookup && d.lookup[d.order[i].key] == d.order[i])
    && (forall k | k in d.lookup :: d.lookup[k] in d.order && d.lookup[k].key == k)
  }

  lemma AgreesOnLookup(d: Dictionary, k: Key)
    requires Agrees(d)
    ensures Lookup(d.order, k) == if k in d.lookup then d.lookup[k] else null
  {
    var r := Lookup(d.order, k);
    if r != null {
      var i :| 0 <= i < |d.order| && d.order[i] == r;
    }
  }

  lemma StepOrder(m: Model, h: HashFunction, d: Dictionary, op: Op)
    requires Valid(m, h) && Items(m) == d.order && Agrees(d) && Allowed(d.order, op)
    ensures Items(Apply(m, h, op)) == ApplyPlain(d, op).order
  {
    match op {
      case OpReplace(x) =>
        ReplaceOrder(m, h, d, x);
      case OpDelete(x) =>
        DeleteOrder(m, h, d, x);
      case _ =>
    }
  }

  lemma ReplaceOrder(m: Model, h: HashFunction, d: Dictionary, x: Item)
    requires Valid(m, h) && Items(m) == d.order && Agrees(d)
    ensures Items(Replace(m, h, x)) == ApplyPlain(d, OpReplace(x)).order
  {
    AgreesOnLookup(d, x.key);
    ReplaceValid(m, h, x);
  }

  lemma DeleteOrder(m: Model, h: HashFunction, d: Dictionary, x: Item)
    requires Valid(m, h) && Items(m) == d.order && x in d.order
    ensures Items(Apply(m, h, OpDelete(x))) == ApplyPlain(d, OpDelete(x)).order
  {
    DeleteValid(m, h, x);
  }

  lemma AgreesAfterAdd(d: Dictionary, x: Item, order: seq<Item>)
    requires Agrees(d) && x.key !in d.lookup && Joins(d.order, x, order)
    ensures Agrees(Dictionary(order, d.lookup[x.key := x]))
  {
    var l := d.lookup[x.key := x];
    forall i | 0 <= i < |order|
      ensures order[i].key in l && l[order[i].key] == order[i]
    {
      if order[i] != x {
        var j :| 0 <= j < |d.order| && d.order[j] == order[i];
      }
    }
  }

  lemma AgreesAfterDelete(d: Dictionary, x: Item)
    requires Agrees(d) && x in d.order
    ensures Agrees(Dictionary(Without(d.order, x), d.lookup - {x.key}))
  {
    WithoutDistinct(d.order, x);
    DistinctKeysNoDup(d.order);
    WithoutMembers(d.order, x);
    var r := Without(d.order, x);
    forall i | 0 <= i < |r|
      ensures r[i].key in d.lookup && d.lookup[r[i].key] == r[i] && r[i].key != x.key
    {
      assert r[i] in d.order;
    }
    forall k | k in d.lookup && k != x.key
      ensures d.lookup[k] in r
    {
      assert d.lookup[k] in d.order && d.lookup[k] != x;
    }
  }

  lemma AgreesAfterSort(d: Dictionary, cmp: Comparator)
    requires Agrees(d)
    ensures Agrees(Dictionary(MergeSort(cmp, d.order), d.lookup))
  {
    var t := MergeSort(cmp, d.order);
    DistinctKeysNoDup(d.order);
    SortMembers(cmp, d.order);
    PermutedDistinct(d.order, t);
    forall i | 0 <= i < |t|
      ensures t[i].key in d.lookup && d.lookup[t[i].key] == t[i]
    {
      assert t[i] in d.order;
    }
    forall k | k in d.lookup
      ensures d.lookup[k] in t
    {
      assert d.lookup[k] in d.order;
    }
  }

  lemma AppendJoins(s: seq<Item>, x: Item)
    requires DistinctKeys(s) && forall y | y in s :: y.key != x.key
    ensures Joins(s, x, s + [x])
  {
  }

  lemma AbsentKey(d: Dictionary, k: Key)
    requires Agrees(d) && forall y | y in d.order :: y.key != k
    ensures k !in d.lookup
  {
  }

  lemma StepAgrees(d: Dictionary, op: Op)
    requires Agrees(d) && Allowed(d.order, op)
    ensures Agrees(ApplyPlain(d, op))
  {
    match op {
      case OpAdd(x) =>
        AbsentKey(d, x.key);
        AppendJoins(d.order, x);
        AgreesAfterAdd(d, x, d.order + [x]);
      case OpAddInOrder(x, cmp) =>
        AbsentKey(d, x.key);
        InsertJoins(cmp, d.order, x);
        AgreesAfterAdd(d, x, InsertInOrder(cmp, d.order, x));
      case OpReplace(x) =>
        ReplaceAgrees(d, x);
      case OpDelete(x) =>
        AgreesAfterDelete(d, x);
      case OpSort(cmp) =>
        AgreesAfterSort(d, cmp);
    }
  }

  lemma ReplaceAgrees(d: Dictionary, x: Item)
    requires Agrees(d)
    ensures Agrees(ApplyPlain(d, OpReplace(x)))
  {
    if x.key in d.lookup {
      var y := d.lookup[x.key];
      var e := Dictionary(Without(d.order, y), d.lookup - {x.key});
      AgreesAfterDelete(d, y);
      forall z | z in e.order
        ensures z.key != x.key
      {
        var i :| 0 <= i < |e.order| && e.order[i] == z;
      }
      AppendJoins(e.order, x);
      AgreesAfterAdd(e, x, e.order + [x]);
      assert e.lookup[x.key := x] == d.lookup[x.key := x];
    } else {
      AppendJoins(d.order, x);
      AgreesAfterAdd(d, x, d.order + [x]);
    }
  }

  // ---- the theorem over runs ------------------------------------------------------------------------------

  /** The table after these operations, starting from a NULL head. */
  ghost function Run(h: HashFunction, ops: seq<Op>): (m: Model)
    requires RunAllowed(ops)
    ensures Valid(m, h) && Items(m) == RunPlain(ops).order && Agrees(RunPlain(ops))
  {
    if ops == [] then Absent
    else
      var m, d, op := Run(h, ops[..|ops| - 1]), RunPlain(ops[..|ops| - 1]), ops[|ops| - 1];
      StepOrder(m, h, d, op);
      StepAgrees(d, op);
      Apply(m, h, op)
  }

  /** After any history the table is a finite map with an application order, however its buckets lie: it holds the
      items the plain dictionary holds, in the same order, and finding a key gives the dictionary's answer. And
      unless expansion has been inhibited there are at most 19 items per bucket on average, and no chain is past the
      threshold at which it would have set off an expansion. */
  lemma RunIsDictionary(h: HashFunction, ops: seq<Op>, k: Key)
    requires RunAllowed(ops)
    ensures var (m, d) := (Run(h, ops), RunPlain(ops));
            && Items(m) == d.order
            && Find(m, h, k) == (if k in d.lookup then d.lookup[k] else null)
            && (m.Table? && !m.noexpand ==>
                  && |m.items| <= 19 * |m.chains|
                  && forall j | 0 <= j < |m.chains| :: |m.chains[j]| <= (m.mults[j] + 1) * BKT_CAPACITY_THRESH)
  {
    var m, d := Run(h, ops), RunPlain(ops);
    FindIsLookup(m, h, k);
    AgreesOnLookup(d, k);
    if m.Table? && !m.noexpand {
      LoadFactor(m, h);
    }
  }

  // ---- the expansion record -------------------------------------------------------------------------------

  /** What the operation's addition, if it has one, starts from. */
  ghost function Base(m: Model, h: HashFunction, op: Op): (r: Model)
    requires Valid(m, h) && Allowed(Items(m), op)
  {
    if op.OpReplace? then Cleared(m, h, op.x.key) else m
  }

  predicate Adds(op: Op) {
    op.OpAdd? || op.OpAddInOrder? || op.OpReplace?
  }

  /** Expansion is not inhibited, and the chain the item goes to reaches with it ten times one more than its
      multiplier. */
  predicate FillsChain(s: Model, h: HashFunction, x: Item)
    requires Shaped(s)
  {
    var j := h(x.key) % |s.chains|;
    !s.noexpand && |s.chains[j]| + 1 >= 10 * (s.mults[j] + 1)
  }

  ghost predicate Fills(m: Model, h: HashFunction, op: Op)
    requires Valid(m, h) && Allowed(Items(m), op)
  {
    Adds(op) && FillsChain(Started(Base(m, h, op)), h, op.x)
  }

  /** For the table now allocated, each expansion so far: did more than half the items stay misplaced? */
  ghost function Record(h: HashFunction, ops: seq<Op>): seq<bool>
    requires RunAllowed(ops)
  {
    if ops == [] then []
    else
      var before, op := ops[..|ops| - 1], ops[|ops| - 1];
      var m := Run(h, before);
      var r := Apply(m, h, op);
      var kept := if Base(m, h, op).Absent? || r.Absent? then [] else Record(h, before);
      if Fills(m, h, op) then kept + [r.nonideal > |r.items| / 2] else kept
  }

  function Streak(r: seq<bool>): nat {
    if r == [] || !r[|r| - 1] then 0 else 1 + Streak(r[..|r| - 1])
  }

  /** What no addition that fills its chain leaves alone: the number of buckets, the multipliers and the counters. */
  ghost predicate SameCounters(s: Model, r: Model)
    requires s.Table? && r.Table?
  {
    && |r.chains| == |s.chains| && r.mults == s.mults && r.log2 == s.log2 && r.ideal == s.ideal
    && r.nonideal == s.nonideal && r.ineff == s.ineff && r.noexpand == s.noexpand
  }

  /** One operation on a table doubles the buckets when it fills a chain, and judges the doubling; otherwise it touches
      neither their number nor any multiplier or counter. */
  ghost predicate Doubles(s: Model, r: Model)
    requires s.Table? && r.Table?
  {
    && |r.chains| == 2 * |s.chains|
    && r.ineff == (if r.nonideal > |r.items| / 2 then s.ineff + 1 else 0)
  }

  lemma StepBuckets(m: Model, h: HashFunction, op: Op)
    requires Valid(m, h) && Allowed(Items(m), op) && Apply(m, h, op).Table?
    ensures var (s, r) := (Started(Base(m, h, op)), Apply(m, h, op));
            if Fills(m, h, op) then Doubles(s, r) else SameCounters(s, r)
  {
    match op {
      case OpAdd(x) => AddBuckets(m, h, x);
      case OpAddInOrder(x, cmp) => BucketStep(Started(m), h, x, InsertInOrder(cmp, Items(m), x));
      case OpReplace(x) => AddBuckets(Cleared(m, h, x.key), h, x);
      case OpDelete(x) => DeleteBuckets(m, h, x);
      case OpSort(cmp) => SortBuckets(m, h, cmp);
    }
  }

  /** What adding an item to s does to the buckets when r is the result. */
  ghost predicate AddsToBuckets(s: Model, h: HashFunction, x: Item, r: Model)
    requires Shaped(s) && Shaped(r)
  {
    if FillsChain(s, h, x) then Doubles(s, r) else SameCounters(s, r)
  }

  lemma AddBuckets(m: Model, h: HashFunction, x: Item)
    requires Valid(m, h)
    ensures AddsToBuckets(Started(m), h, x, Add(m, h, x))
  {
    BucketStep(Started(m), h, x, Items(m) + [x]);
  }

  lemma DeleteBuckets(m: Model, h: HashFunction, x: Item)
    requires Valid(m, h) && m.Table? && x in m.items && x in m.chains[Slot(h, x, |m.chains|)]
    ensures Delete(m, h, x).Table? ==> SameCounters(m, Delete(m, h, x))
  {
  }

  lemma SortBuckets(m: Model, h: HashFunction, cmp: Comparator)
    requires Valid(m, h) && m.Table?
    ensures SameCounters(m, Sort(m, cmp))
  {
  }

  lemma BucketStep(s: Model, h: HashFunction, x: Item, items: seq<Item>)
    requires Shaped(s) && items != []
    ensures AddsToBuckets(s, h, x, AddToBucket(WithItems(s, items), h, x))
  {
    AddedToBucket(WithItems(s, items), h, x);
  }

  lemma StepStreak(m: Model, h: HashFunction, op: Op)
    requires Valid(m, h) && Allowed(Items(m), op)
    ensures var (b, r) := (Base(m, h, op), Apply(m, h, op));
            r.Table? ==>
              var was := if b.Absent? then 0 else b.ineff;
              r.ineff == if !Fills(m, h, op) then was
                         else if r.nonideal > |r.items| / 2 then was + 1 else 0
  {
    if Apply(m, h, op).Table? {
      StepBuckets(m, h, op);
      IneffOf(Base(m, h, op), Apply(m, h, op), Fills(m, h, op));
    }
  }

  lemma IneffOf(b: Model, r: Model, fills: bool)
    requires (b.Table? ==> Shaped(b)) && r.Table?
    requires if fills then Doubles(Started(b), r) else SameCounters(Started(b), r)
    ensures var was := if b.Absent? then 0 else b.ineff;
            r.ineff == if !fills then was else if r.nonideal > |r.items| / 2 then was + 1 else 0
  {
    StartsEmpty();
  }

  lemma BaseKeeps(m: Model, h: HashFunction, op: Op)
    requires Valid(m, h) && Allowed(Items(m), op)
    ensures Base(m, h, op).Table? ==>
              m.Table? && Base(m, h, op).ineff == m.ineff && |Base(m, h, op).chains| == |m.chains|
  {
  }

  /** Expansion is inhibited exactly when the last two expansions of this table were both ineffective. */
  lemma {:induction false} InhibitedAfterTwo(h: HashFunction, ops: seq<Op>)
    requires RunAllowed(ops) && Run(h, ops).Table?
    ensures Run(h, ops).noexpand <==> LastTwo(Record(h, ops))
  {
    StreakIsIneff(h, ops);
    InhibitedByStreak(Run(h, ops), h, Record(h, ops));
  }

  predicate LastTwo(r: seq<bool>) {
    |r| >= 2 && r[|r| - 1] && r[|r| - 2]
  }

  lemma InhibitedByStreak(m: Model, h: HashFunction, r: seq<bool>)
    requires Valid(m, h) && m.Table? && m.ineff == Streak(r)
    ensures m.noexpand <==> LastTwo(r)
  {
  }

  lemma {:induction false} StreakIsIneff(h: HashFunction, ops: seq<Op>)
    requires RunAllowed(ops) && Run(h, ops).Table?
    ensures Run(h, ops).ineff == Streak(Record(h, ops))
  {
    var before, op := ops[..|ops| - 1], ops[|ops| - 1];
    var m := Run(h, before);
    StepStreak(m, h, op);
    BaseKeeps(m, h, op);
    if Base(m, h, op).Table? {
      StreakIsIneff(h, before);
      StreakAppend(Record(h, before), Apply(m, h, op).nonideal > |Apply(m, h, op).items| / 2);
    } else {
      StreakAppend([], Apply(m, h, op).nonideal > |Apply(m, h, op).items| / 2);
    }
  }

  lemma StreakAppend(r: seq<bool>, b: bool)
    ensures Streak(r + [b]) == if b then Streak(r) + 1 else 0
  {
    assert (r + [b])[..|r|] == r;
  }

  // ---- how many buckets there are -------------------------------------------------------------------------

  /** How often an operation has filled a chain since the table now allocated was made. */
  ghost function Doublings(h: HashFunction, ops: seq<Op>): nat
    requires RunAllowed(ops)
  {
    if ops == [] then 0
    else
      var before, op := ops[..|ops| - 1], ops[|ops| - 1];
      var m := Run(h, before);
      var kept := if Base(m, h, op).Absent? || Apply(m, h, op).Absent? then 0 else Doublings(h, before);
      if Fills(m, h, op) then kept + 1 else kept
  }

  /** A table has thirty-two buckets, doubled once for every operation that filled a chain since it was made. */
  lemma {:induction false} BucketsDoubled(h: HashFunction, ops: seq<Op>)
    requires RunAllowed(ops) && Run(h, ops).Table?
    ensures |Run(h, ops).chains| == 32 * Pow2(Doublings(h, ops))
  {
    var before, op := ops[..|ops| - 1], ops[|ops| - 1];
    var m := Run(h, before);
    StepBuckets(m, h, op);
    BaseKeeps(m, h, op);
    StartsEmpty();
    if Base(m, h, op).Table? {
      BucketsDoubled(h, before);
    }
  }

  /** The most items the table now allocated has held. */
  ghost function MostHeld(h: HashFunction, ops: seq<Op>): nat
    requires RunAllowed(ops)
  {
    if ops == [] then 0
    else
      var before, op := ops[..|ops| - 1], ops[|ops| - 1];
      var m := Run(h, before);
      var kept := if Base(m, h, op).Absent? || Apply(m, h, op).Absent? then 0 else MostHeld(h, before);
      var held := |Items(Apply(m, h, op))|;
      if held > kept then held else kept
  }

  /** So a table that has never held ten items has thirty-two. */
  lemma FewItemsFewBuckets(h: HashFunction, ops: seq<Op>)
    requires RunAllowed(ops) && Run(h, ops).Table? && MostHeld(h, ops) < 10
    ensures |Run(h, ops).chains| == 32
  {
    NeverFilled(h, ops);
    BucketsDoubled(h, ops);
  }

  lemma {:induction false} NeverFilled(h: HashFunction, ops: seq<Op>)
    requires RunAllowed(ops) && MostHeld(h, ops) < 10
    ensures Doublings(h, ops) == 0
  {
    if ops != [] {
      var before, op := ops[..|ops| - 1], ops[|ops| - 1];
      var m := Run(h, before);
      if Base(m, h, op).Table? && Apply(m, h, op).Table? {
        NeverFilled(h, before);
      }
      if Fills(m, h, op) {
        FilledHolds(m, h, op);
      }
    }
  }

  /** An addition that fills a chain leaves ten items or more. */
  lemma FilledHolds(m: Model, h: HashFunction, op: Op)
    requires Valid(m, h) && Allowed(Items(m), op) && Fills(m, h, op)
    ensures Apply(m, h, op).Table? && |Items(Apply(m, h, op))| >= 10
  {
    var s := Started(Base(m, h, op));
    var j := h(op.x.key) % |s.chains|;
    StartedValid(Base(m, h, op), h);
    OneOfSum(Lens(s.chains), j);
  }

  // ---- inhibition stays -----------------------------------------------------------------------------------

  /** Once inhibited, always inhibited: until the table is freed the buckets stay as they are. */
  lemma InhibitionStays(m: Model, h: HashFunction, op: Op)
    requires Valid(m, h) && Allowed(Items(m), op) && m.Table? && m.noexpand
    requires Base(m, h, op).Table? && Apply(m, h, op).Table?
    ensures Apply(m, h, op).noexpand && |Apply(m, h, op).chains| == |m.chains|
  {
    BaseKeeps(m, h, op);
  }

  /** The table allocated when `ops` had been done is still the one in use after `more`: no operation freed it. */
  ghost predicate SameTable(h: HashFunction, ops: seq<Op>, more: seq<Op>)
    requires RunAllowed(ops + more)
    decreases |more|
  {
    more == [] ||
    (var before := more[..|more| - 1];
     Shorten(ops, more);
     && SameTable(h, ops, before)
     && Base(Run(h, ops + before), h, more[|more| - 1]).Table? && Run(h, ops + more).Table?)
  }

  lemma Shorten(ops: seq<Op>, more: seq<Op>)
    requires more != [] && RunAllowed(ops + more)
    ensures ops + more == (ops + more[..|more| - 1]) + [more[|more| - 1]]
    ensures RunAllowed(ops + more[..|more| - 1])
    ensures Allowed(RunPlain(ops + more[..|more| - 1]).order, more[|more| - 1])
  {
    var all, before := ops + more, ops + more[..|more| - 1];
    assert all[..|all| - 1] == before && all == before + [more[|more| - 1]];
  }

  lemma RunOne(h: HashFunction, ops: seq<Op>, op: Op)
    requires RunAllowed(ops + [op]) && RunAllowed(ops) && Allowed(RunPlain(ops).order, op)
    ensures Run(h, ops + [op]) == Apply(Run(h, ops), h, op)
  {
    assert (ops + [op])[..|ops|] == ops;
  }

  /** Over any further operations, until the table is freed, expansion stays inhibited and the buckets as many. */
  lemma {:induction false} InhibitedForGood(h: HashFunction, ops: seq<Op>, more: seq<Op>)
    requires RunAllowed(ops + more) && RunAllowed(ops) && Run(h, ops).Table? && Run(h, ops).noexpand
    requires SameTable(h, ops, more)
    ensures Run(h, ops + more).Table? && Run(h, ops + more).noexpand
    ensures |Run(h, ops + more).chains| == |Run(h, ops).chains|
    decreases |more|
  {
    if more == [] {
      assert ops + more == ops;
    } else {
      var before, op := more[..|more| - 1], more[|more| - 1];
      Shorten(ops, more);
      InhibitedForGood(h, ops, before);
      RunOne(h, ops + before, op);
      InhibitionStays(Run(h, ops + before), h, op);
    }
  }
}
