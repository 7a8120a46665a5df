/** What every add, replace, delete, sort and expansion keeps, and what finding returns. */
module UthashLaws {
  import opened Bits
  import opened Seqs
  import opened UthashTypes
  import opened UthashSpec
  import opened UthashSort

  // ---- expansion ------------------------------------------------------------------------------------------

  lemma {:induction false} SplitMembers(h: HashFunction, c: seq<Item>, j: nat, n: nat)
    requires n > 0
    ensures forall k | 0 <= k < |Split(h, c, j, n)| ::
              Split(h, c, j, n)[k] in c && Slot(h, Split(h, c, j, n)[k], n) == j
    ensures forall k | 0 <= k < |c| :: Slot(h, c[k], n) == j ==> c[k] in Split(h, c, j, n)
    ensures NoDup(c) ==> NoDup(Split(h, c, j, n))
  {
    if c != [] {
      var x, rest := c[|c| - 1], c[..|c| - 1];
      SplitMembers(h, rest, j, n);
      forall k | 0 <= k < |c|
        ensures Slot(h, c[k], n) == j ==> c[k] in Split(h, c, j, n)
      {
        if k < |rest| {
          assert rest[k] == c[k];
        }
      }
    }
  }

  lemma {:induction false} SplitHalves(h: HashFunction, c: seq<Item>, i: nat, n: nat)
    requires i < n && forall x | x in c :: Slot(h, x, n) == i
    ensures |Split(h, c, i, 2 * n)| + |Split(h, c, i + n, 2 * n)| == |c|
  {
    if c != [] {
      var x := c[|c| - 1];
      assert x in c && Slot(h, x, n) == i;
      DoubledModulus(h(x.key), n);
      SplitHalves(h, c[..|c| - 1], i, n);
    }
  }

  /** Doubling moves an item of bucket i to bucket i or bucket i + num_buckets, whichever its hash selects, and
      nowhere else; nothing is lost and nothing appears. */
  lemma ExpandMoves(h: HashFunction, items: seq<Item>, chains: seq<seq<Item>>, i: nat, x: Item)
    requires |chains| > 0 && Placed(h, items, chains) && i < |chains| && x in chains[i]
    ensures forall j | 0 <= j < 2 * |chains| ::
              x in ExpandedChains(h, chains)[j] <==> j == Slot(h, x, 2 * |chains|)
    ensures Slot(h, x, 2 * |chains|) == i || Slot(h, x, 2 * |chains|) == i + |chains|
  {
    var n := |chains|;
    DoubledModulus(h(x.key), n);
    forall j | 0 <= j < 2 * n
      ensures x in ExpandedChains(h, chains)[j] <==> j == Slot(h, x, 2 * n)
    {
      SplitMembers(h, chains[j % n], j, 2 * n);
    }
  }

  lemma PlacedMember(h: HashFunction, items: seq<Item>, chains: seq<seq<Item>>, i: nat, x: Item)
    requires |chains| > 0 && Placed(h, items, chains) && i < |chains| && x in chains[i]
    ensures x in items && Slot(h, x, |chains|) == i
  {
    var k :| 0 <= k < |chains[i]| && chains[i][k] == x;
  }

  lemma ExpandedChain(h: HashFunction, items: seq<Item>, chains: seq<seq<Item>>, j: nat)
    requires |chains| > 0 && Placed(h, items, chains) && ChainsNoDup(chains) && j < 2 * |chains|
    ensures NoDup(ExpandedChains(h, chains)[j])
    ensures forall k | 0 <= k < |ExpandedChains(h, chains)[j]| ::
              ExpandedChains(h, chains)[j][k] in items && Slot(h, ExpandedChains(h, chains)[j][k], 2 * |chains|) == j
  {
    var i, n2 := j % |chains|, 2 * |chains|;
    var c := Split(h, chains[i], j, n2);
    SplitMembers(h, chains[i], j, n2);
    forall k | 0 <= k < |c|
      ensures c[k] in items && Slot(h, c[k], n2) == j
    {
      PlacedMember(h, items, chains, i, c[k]);
    }
    assert ExpandedChains(h, chains)[j] == c;
  }

  lemma ExpandPlaced(h: HashFunction, items: seq<Item>, chains: seq<seq<Item>>)
    requires |chains| > 0 && Placed(h, items, chains) && ChainsNoDup(chains)
    ensures Placed(h, items, ExpandedChains(h, chains))
    ensures ChainsNoDup(ExpandedChains(h, chains))
  {
    forall j | 0 <= j < 2 * |chains|
      ensures NoDup(ExpandedChains(h, chains)[j])
      ensures forall k | 0 <= k < |ExpandedChains(h, chains)[j]| ::
              ExpandedChains(h, chains)[j][k] in items && Slot(h, ExpandedChains(h, chains)[j][k], 2 * |chains|) == j
    {
      ExpandedChain(h, items, chains, j);
    }
  }

  lemma ExpandCovered(h: HashFunction, items: seq<Item>, chains: seq<seq<Item>>)
    requires |chains| > 0 && Placed(h, items, chains) && Covered(h, items, chains)
    ensures Covered(h, items, ExpandedChains(h, chains))
  {
    forall x | x in items
      ensures x in ExpandedChains(h, chains)[Slot(h, x, 2 * |chains|)]
    {
      ExpandMoves(h, items, chains, Slot(h, x, |chains|), x);
    }
  }

  lemma ExpandedPair(h: HashFunction, items: seq<Item>, chains: seq<seq<Item>>, i: nat)
    requires i < |chains| && Placed(h, items, chains)
    ensures |ExpandedChains(h, chains)[i]| + |ExpandedChains(h, chains)[i + |chains|]| == |chains[i]|
  {
    var n := |chains|;
    DivModUnique(i, n, 0, i);
    DivModUnique(i + n, n, 1, i);
    SplitHalves(h, chains[i], i, n);
  }

  lemma ExpandCounts(h: HashFunction, items: seq<Item>, chains: seq<seq<Item>>)
    requires |chains| > 0 && Placed(h, items, chains)
    ensures Sum(Lens(ExpandedChains(h, chains))) == Sum(Lens(chains))
  {
    var n := |chains|;
    var lens := Lens(ExpandedChains(h, chains));
    assert lens == lens[..n] + lens[n..];
    SumAppend(lens[..n], lens[n..]);
    forall i | 0 <= i < n
      ensures Lens(chains)[i] == lens[..n][i] + lens[n..][i]
    {
      ExpandedPair(h, items, chains, i);
    }
    SumPointwise(lens[..n], lens[n..], Lens(chains));
  }

  lemma ExpandLinked(m: Model, h: HashFunction)
    requires Shaped(m) && |m.items| > 0 && Linked(m, h)
    ensures Linked(Expand(m, h), h)
  {
    ExpandPlaced(h, m.items, m.chains);
    ExpandCovered(h, m.items, m.chains);
    ExpandCounts(h, m.items, m.chains);
  }

  /** What an expansion leaves in the counters, in plain numbers. The ideal length is the least with which the doubled
      table could hold all items. A chain within it has multiplier 0; otherwise the multiplier says how often the ideal
      length goes into the chain. The misplaced items are those by which the chains exceed it, and the expansion is
      ineffective when they are more than half of all. */
  lemma ExpandedCounters(m: Model, h: HashFunction)
    requires Shaped(m) && |m.items| > 0
    ensures var r := Expand(m, h);
            && |r.chains| == |r.mults| == 2 * |m.chains| && r.ideal > 0
            && (r.ideal - 1) * |r.chains| < |m.items| <= r.ideal * |r.chains|
            && (forall j | 0 <= j < |r.chains| && |r.chains[j]| <= r.ideal :: r.mults[j] == 0)
            && (forall j | 0 <= j < |r.chains| && |r.chains[j]| > r.ideal ::
                  r.mults[j] * r.ideal <= |r.chains[j]| < (r.mults[j] + 1) * r.ideal)
            && r.nonideal == Sum(seq(|r.chains|, j requires 0 <= j < |r.chains| =>
                                   if |r.chains[j]| <= r.ideal then 0 else |r.chains[j]| - r.ideal))
            && r.ineff == (if 2 * r.nonideal > |m.items| then m.ineff + 1 else 0)
            && (r.noexpand <==> m.noexpand || r.ineff >= 2)
  {
    var r := Expand(m, h);
    IdealIsLeast(|m.items|, |r.chains|, r.ideal);
    forall j | 0 <= j < |r.chains| && |r.chains[j]| > r.ideal
      ensures r.mults[j] * r.ideal <= |r.chains[j]| < (r.mults[j] + 1) * r.ideal
    {
      MultiplierFits(|r.chains[j]|, r.ideal);
    }
    assert Excesses(r.chains, r.ideal)
        == seq(|r.chains|, j requires 0 <= j < |r.chains| =>
                 if |r.chains[j]| <= r.ideal then 0 else |r.chains[j]| - r.ideal);
  }

  /** The least length at which n chains hold so many items. */
  predicate IsLeast(ideal: nat, items: nat, n: nat) {
    ideal > 0 && (ideal - 1) * n < items <= ideal * n
  }

  lemma IdealIsLeast(items: nat, n: nat, ideal: nat)
    requires n > 0 && items > 0 && ideal == CeilDiv(items, n)
    ensures IsLeast(ideal, items, n)
  {
  }

  lemma MultiplierFits(count: nat, ideal: nat)
    requires ideal > 0
    ensures count <= ideal ==> MultFor(count, ideal) == 0
    ensures count > ideal ==> MultFor(count, ideal) * ideal <= count < (MultFor(count, ideal) + 1) * ideal
  {
    var q := count / ideal;
    assert (q + 1) * ideal == q * ideal + ideal;
  }

  /** Moving item by item turns the order round: what is nearer the front of the old chain ends further back in the
      new one. */
  lemma {:induction false} SplitTurnsRound(h: HashFunction, a: seq<Item>, b: seq<Item>, j: nat, n: nat)
    requires n > 0
    ensures Split(h, a + b, j, n) == Split(h, b, j, n) + Split(h, a, j, n)
  {
    if b == [] {
      EmptyEnds(a);
    } else {
      var b', x := b[..|b| - 1], b[|b| - 1];
      LastApart(b);
      Associate(a, b', [x]);
      SplitTurnsRound(h, a, b', j, n);
      SplitLast(h, a + b', x, j, n);
      Associate(if Slot(h, x, n) == j then [x] else [], Split(h, b', j, n), Split(h, a, j, n));
    }
  }

  lemma SplitLast(h: HashFunction, c: seq<Item>, x: Item, j: nat, n: nat)
    requires n > 0
    ensures Split(h, c + [x], j, n) == (if Slot(h, x, n) == j then [x] else []) + Split(h, c, j, n)
  {
    assert (c + [x])[..|c|] == c;
  }

  // ---- the load bound -------------------------------------------------------------------------------------

  lemma CapAfterExpansion(c: nat, ideal: nat)
    requires 1 <= ideal <= BKT_CAPACITY_THRESH
    ensures ideal * Cap(c, MultFor(c, ideal)) <= 9 * ideal + 10 * c
  {
    if c > ideal {
      var q := c / ideal;
      assert q * ideal <= c;
      assert c < (q + 1) * ideal;
      assert (q + 1) * ideal <= (q + 1) * 10 by { MulBelow(ideal, 10, q + 1); }
      assert Cap(c, q) == 10 * q + 9;
      assert ideal * (10 * q + 9) == 10 * (q * ideal) + 9 * ideal;
    } else if c == 10 {
    } else {
      assert Cap(c, 0) == 9;
    }
  }

  lemma MulBelow(a: nat, b: nat, k: nat)
    requires a <= b
    ensures k * a <= k * b && a * k <= b * k
  {
    assert k * b == k * a + k * (b - a);
  }

  lemma CapStep(ideal: nat, cap: nat, count: nat, caps: nat, counts: nat, n: nat)
    requires ideal * cap <= 9 * ideal + 10 * count
    requires ideal * caps <= 9 * ideal * n + 10 * counts
    ensures ideal * (cap + caps) <= 9 * ideal * (n + 1) + 10 * (count + counts)
  {
    assert ideal * (cap + caps) == ideal * cap + ideal * caps;
    assert 9 * ideal * (n + 1) == 9 * ideal * n + 9 * ideal;
  }

  lemma BoundFromWeighted(ideal: nat, s: nat, n: nat, items: nat)
    requires ideal >= 1 && items <= ideal * n
    requires ideal * s <= 9 * ideal * n + 10 * items
    ensures s <= 19 * n
  {
    assert 9 * ideal * n == 9 * (ideal * n);
    assert ideal * (19 * n + 1) == 19 * (ideal * n) + ideal;
    if s > 19 * n {
      MulBelow(19 * n + 1, s, ideal);
    }
  }

  lemma IdealBounded(items: nat, n: nat)
    requires n > 0 && 0 < items <= 10 * n
    ensures 1 <= CeilDiv(items, n) <= 10
  {
    var c := CeilDiv(items, n);
    if c > 10 {
      MulBelow(10, c - 1, n);
    }
  }

  lemma {:induction false} CapsAfterExpansion(chains: seq<seq<Item>>, ideal: nat)
    requires 1 <= ideal <= BKT_CAPACITY_THRESH
    ensures ideal * Sum(Caps(chains, Mults(chains, ideal))) <= 9 * ideal * |chains| + 10 * Sum(Lens(chains))
  {
    if chains == [] {
    } else {
      var rest := chains[1..];
      assert Caps(chains, Mults(chains, ideal))[1..] == Caps(rest, Mults(rest, ideal));
      assert Lens(chains)[1..] == Lens(rest);
      CapAfterExpansion(|chains[0]|, ideal);
      CapsAfterExpansion(rest, ideal);
      CapStep(ideal, Cap(|chains[0]|, MultFor(|chains[0]|, ideal)), |chains[0]|,
              Sum(Caps(rest, Mults(rest, ideal))), Sum(Lens(rest)), |rest|);
    }
  }

  /** An expansion of a table that is not overfull computes an ideal chain length between 1 and 10 (so dividing
      by it is safe) and restores the load bound for the doubled table. */
  lemma ExpandLoaded(m: Model, h: HashFunction)
    requires Shaped(m) && |m.items| > 0 && Linked(m, h)
    requires m.log2 >= INITIAL_NUM_BUCKETS_LOG2 && !m.noexpand && m.ineff <= 1
    requires |m.items| <= 20 * |m.chains|
    ensures Loaded(Expand(m, h))
    ensures 1 <= Expand(m, h).ideal <= BKT_CAPACITY_THRESH
  {
    var r := Expand(m, h);
    IdealBounded(|m.items|, |r.chains|);
    ExpandLinked(m, h);
    CapsAfterExpansion(r.chains, r.ideal);
    BoundFromWeighted(r.ideal, Sum(Caps(r.chains, r.mults)), |r.chains|, |m.items|);
    ThresholdAfterExpansion(r.chains, r.ideal);
  }

  /** The multipliers set by an expansion leave every chain within its threshold. */
  lemma ThresholdAfterExpansion(chains: seq<seq<Item>>, ideal: nat)
    requires 1 <= ideal <= BKT_CAPACITY_THRESH
    ensures WithinThreshold(chains, Mults(chains, ideal))
  {
    forall j | 0 <= j < |chains|
      ensures |chains[j]| <= (Mults(chains, ideal)[j] + 1) * BKT_CAPACITY_THRESH
    {
      CountWithinThreshold(|chains[j]|, ideal);
    }
  }

  lemma CountWithinThreshold(c: nat, ideal: nat)
    requires 1 <= ideal <= BKT_CAPACITY_THRESH
    ensures c <= (MultFor(c, ideal) + 1) * BKT_CAPACITY_THRESH
  {
    if c > ideal {
      var q := c / ideal;
      assert c < (q + 1) * ideal;
      MulBelow(ideal, BKT_CAPACITY_THRESH, q + 1);
    }
  }

  lemma CapsUpdate(chains: seq<seq<Item>>, mults: seq<nat>, j: nat, c: seq<Item>)
    requires j < |chains| == |mults|
    ensures Sum(Caps(chains[j := c], mults))
         == Sum(Caps(chains, mults)) - Cap(|chains[j]|, mults[j]) + Cap(|c|, mults[j])
  {
    assert Caps(chains[j := c], mults) == Caps(chains, mults)[j := Cap(|c|, mults[j])];
    SumUpdate(Caps(chains, mults), j, Cap(|c|, mults[j]));
  }

  lemma LensUpdate(chains: seq<seq<Item>>, j: nat, c: seq<Item>)
    requires j < |chains|
    ensures Sum(Lens(chains[j := c])) == Sum(Lens(chains)) - |chains[j]| + |c|
  {
    assert Lens(chains[j := c]) == Lens(chains)[j := |c|];
    SumUpdate(Lens(chains), j, |c|);
  }

  lemma NewTableValid(h: HashFunction)
    ensures Shaped(NewTable()) && Linked(NewTable(), h) && Loaded(NewTable())
  {
    var m := NewTable();
    assert Pow2(5) == 32;
    SumConstant(Lens(m.chains), 0);
    NewTableLoaded(m.chains, m.mults);
  }

  lemma NewTableLoaded(chains: seq<seq<Item>>, mults: seq<nat>)
    requires |chains| == |mults|
    requires forall j | 0 <= j < |chains| :: chains[j] == [] && mults[j] == 0
    ensures Sum(Caps(chains, mults)) <= 19 * |chains| && WithinThreshold(chains, mults)
  {
    SumConstant(Caps(chains, mults), 9);
  }

  /** While expansion is not inhibited the table holds at most 19 items per bucket on average, and no bucket holds
      more than the threshold that its multiplier sets. */
  lemma LoadFactor(m: Model, h: HashFunction)
    requires Valid(m, h) && m.Table? && !m.noexpand
    ensures |m.items| <= 19 * |m.chains|
    ensures forall j | 0 <= j < |m.chains| :: |m.chains[j]| <= (m.mults[j] + 1) * BKT_CAPACITY_THRESH
  {
    SumMonotone(Lens(m.chains), Caps(m.chains, m.mults));
  }

  // ---- adding ---------------------------------------------------------------------------------------------

  /** The item joins the application order somewhere, and its bucket at the front. */
  ghost predicate Joins(before: seq<Item>, x: Item, after: seq<Item>) {
    && |after| == |before| + 1
    && DistinctKeys(after)
    && x in after
    && (forall i | 0 <= i < |before| :: before[i] in after)
    && (forall i | 0 <= i < |after| :: after[i] in before || after[i] == x)
  }

  lemma PushedLinked(m: Model, h: HashFunction, x: Item, items: seq<Item>)
    requires Shaped(m) && Linked(m, h) && x !in m.items && Joins(m.items, x, items)
    ensures Linked(Pushed(WithItems(m, items), h, x), h)
  {
    var n := |m.chains|;
    var j := Slot(h, x, n);
    var r := Pushed(WithItems(m, items), h, x);
    assert x !in m.chains[j];
    assert r.chains[j][1..] == m.chains[j];
    LensUpdate(m.chains, j, r.chains[j]);
    forall i, k | 0 <= i < n && 0 <= k < |r.chains[i]|
      ensures r.chains[i][k] in items && Slot(h, r.chains[i][k], n) == i
    {
      if i == j && k > 0 {
        assert r.chains[i][k] == m.chains[j][k - 1];
      }
    }
    forall y | y in items
      ensures y in r.chains[Slot(h, y, n)]
    {
      if y != x && Slot(h, y, n) == j {
        var k :| 0 <= k < |m.chains[j]| && m.chains[j][k] == y;
        assert r.chains[j][k + 1] == y;
      }
    }
  }

  lemma PushedPlaced(m: Model, h: HashFunction, x: Item)
    requires Shaped(m) && Placed(h, m.items, m.chains) && ChainsNoDup(m.chains)
    requires x in m.items && x !in m.chains[Slot(h, x, |m.chains|)]
    ensures Placed(h, m.items, Pushed(m, h, x).chains) && ChainsNoDup(Pushed(m, h, x).chains)
  {
    var j := Slot(h, x, |m.chains|);
    assert Pushed(m, h, x).chains[j][1..] == m.chains[j];
  }

  lemma PushedLoaded(m: Model, h: HashFunction, x: Item, items: seq<Item>)
    requires Shaped(m) && Loaded(m)
    requires !MustExpand(Pushed(m, h, x), Slot(h, x, |m.chains|))
    ensures Loaded(Pushed(WithItems(m, items), h, x))
  {
    var j := Slot(h, x, |m.chains|);
    var r := Pushed(WithItems(m, items), h, x);
    CapsUpdate(m.chains, m.mults, j, r.chains[j]);
  }

  /** Putting a fresh item into its bucket, expanding if the chain has reached its threshold, keeps everything;
      an expansion happens only with an ideal chain length between 1 and 10. */
  lemma AddToBucketValid(m: Model, h: HashFunction, x: Item, items: seq<Item>)
    requires Shaped(m) && Linked(m, h) && Loaded(m)
    requires x !in m.items && Joins(m.items, x, items)
    ensures Valid(AddToBucket(WithItems(m, items), h, x), h)
    ensures MustExpand(Pushed(m, h, x), Slot(h, x, |m.chains|)) ==>
              1 <= AddToBucket(WithItems(m, items), h, x).ideal <= BKT_CAPACITY_THRESH
  {
    var p := Pushed(WithItems(m, items), h, x);
    PushedLinked(m, h, x, items);
    if MustExpand(p, Slot(h, x, |m.chains|)) {
      SumMonotone(Lens(m.chains), Caps(m.chains, m.mults));
      assert |m.chains| >= 1;
      ExpandLinked(p, h);
      ExpandLoaded(p, h);
    } else {
      PushedLoaded(m, h, x, items);
    }
  }

  /** What a head that is NULL starts from: thirty-two empty buckets, multipliers and counters zero. */
  lemma StartsEmpty()
    ensures var s := Started(Absent);
            && |s.chains| == |s.mults| == 32 && s.log2 == 5
            && (forall j | 0 <= j < 32 :: s.chains[j] == [] && s.mults[j] == 0)
            && s.items == [] && s.ideal == 0 && s.nonideal == 0 && s.ineff == 0 && !s.noexpand
  {
  }

  /** A bucket addition in plain numbers: it doubles the buckets exactly when expansion is not inhibited and the chain,
      with the new item, reaches ten times one more than its multiplier. Otherwise the item is in front of its chain
      and nothing else is touched. */
  lemma AddedToBucket(m: Model, h: HashFunction, x: Item)
    requires Shaped(m) && |m.items| > 0
    ensures var (r, j) := (AddToBucket(m, h, x), h(x.key) % |m.chains|);
            if !m.noexpand && |m.chains[j]| + 1 >= 10 * (m.mults[j] + 1) then |r.chains| == 2 * |m.chains|
            else r == m.(chains := m.chains[j := [x] + m.chains[j]])
  {
  }

  /** HASH_ADD, to a NULL head or to a table. */
  lemma AddDoublesExactly(m: Model, h: HashFunction, x: Item)
    requires m.Table? ==> Shaped(m)
    ensures var (s, r) := (Started(m), Add(m, h, x));
            var j := h(x.key) % |s.chains|;
            && |r.chains| == (if !s.noexpand && |s.chains[j]| + 1 >= 10 * (s.mults[j] + 1) then 2 * |s.chains|
                              else |s.chains|)
            && (s.noexpand || |s.chains[j]| + 1 < 10 * (s.mults[j] + 1) ==>
                  r == s.(items := s.items + [x], chains := s.chains[j := [x] + s.chains[j]]))
  {
    AddedToBucket(WithItems(Started(m), Items(m) + [x]), h, x);
  }

  lemma AddInOrderDoublesExactly(m: Model, h: HashFunction, cmp: Comparator, x: Item)
    requires m.Table? ==> Shaped(m)
    ensures var (s, r) := (Started(m), AddInOrder(m, h, cmp, x));
            var j := h(x.key) % |s.chains|;
            && |r.chains| == (if !s.noexpand && |s.chains[j]| + 1 >= 10 * (s.mults[j] + 1) then 2 * |s.chains|
                              else |s.chains|)
            && (s.noexpand || |s.chains[j]| + 1 < 10 * (s.mults[j] + 1) ==>
                  r == s.(items := InsertInOrder(cmp, s.items, x), chains := s.chains[j := [x] + s.chains[j]]))
  {
    AddedToBucket(WithItems(Started(m), InsertInOrder(cmp, Items(m), x)), h, x);
  }

  lemma StartedValid(m: Model, h: HashFunction)
    requires Valid(m, h)
    ensures Linked(Started(m), h) && Loaded(Started(m))
  {
    NewTableValid(h);
  }

  ghost predicate Fresh(m: Model, k: Key) {
    forall x | x in Items(m) :: x.key != k
  }

  lemma AddReady(m: Model, h: HashFunction, x: Item, items: seq<Item>)
    requires Valid(m, h) && Fresh(m, x.key)
    requires forall y | y in Items(m) :: y in items
    ensures Placed(h, items, Started(m).chains) && ChainsNoDup(Started(m).chains)
    ensures x !in Items(m) && x !in Started(m).chains[Slot(h, x, |Started(m).chains|)]
  {
    StartedValid(m, h);
  }

  /** The table stays valid exactly when no item had the key. */
  lemma AddValidExactly(m: Model, h: HashFunction, x: Item)
    requires Valid(m, h)
    ensures Valid(Add(m, h, x), h) <==> Fresh(m, x.key)
  {
    if Fresh(m, x.key) {
      AddValid(m, h, x);
    } else {
      var y :| y in Items(m) && y.key == x.key;
      SameKeyTwice(Items(m), y, x);
    }
  }

  lemma SameKeyTwice(s: seq<Item>, y: Item, x: Item)
    requires y in s && y.key == x.key
    ensures !DistinctKeys(s + [x])
  {
    var i :| 0 <= i < |s| && s[i] == y;
    assert (s + [x])[i] == y && (s + [x])[|s|] == x;
  }

  lemma AddValid(m: Model, h: HashFunction, x: Item)
    requires Valid(m, h) && Fresh(m, x.key)
    ensures Valid(Add(m, h, x), h)
  {
    StartedValid(m, h);
    AddToBucketValid(Started(m), h, x, Items(m) + [x]);
  }

  lemma InsertMembers(cmp: Comparator, s: seq<Item>, x: Item)
    ensures var r := InsertInOrder(cmp, s, x);
            && x in r && (forall i | 0 <= i < |s| :: s[i] in r) && (forall i | 0 <= i < |r| :: r[i] in s || r[i] == x)
  {
    var k, r := Ahead(cmp, s, x), InsertInOrder(cmp, s, x);
    assert r[k] == x;
    forall i | 0 <= i < |s|
      ensures s[i] in r
    {
      assert r[if i < k then i else i + 1] == s[i];
    }
    forall i | 0 <= i < |r|
      ensures r[i] in s || r[i] == x
    {
      if i != k {
        assert r[i] == s[if i < k then i else i - 1];
      }
    }
  }

  lemma InsertDistinct(cmp: Comparator, s: seq<Item>, x: Item)
    requires DistinctKeys(s) && forall i | 0 <= i < |s| :: s[i].key != x.key
    ensures DistinctKeys(InsertInOrder(cmp, s, x))
  {
    var k, r := Ahead(cmp, s, x), InsertInOrder(cmp, s, x);
    forall i, j | 0 <= i < j < |r|
      ensures r[i].key != r[j].key
    {
      var a, b := if i < k then i else i - 1, if j < k then j else j - 1;
      assert i != k ==> r[i] == s[a];
      assert j != k ==> r[j] == s[b];
    }
  }

  lemma InsertJoins(cmp: Comparator, s: seq<Item>, x: Item)
    requires DistinctKeys(s) && forall y | y in s :: y.key != x.key
    ensures Joins(s, x, InsertInOrder(cmp, s, x))
  {
    InsertMembers(cmp, s, x);
    InsertDistinct(cmp, s, x);
  }

  lemma AddInOrderValid(m: Model, h: HashFunction, cmp: Comparator, x: Item)
    requires Valid(m, h) && Fresh(m, x.key)
    ensures Valid(AddInOrder(m, h, cmp, x), h)
  {
    StartedValid(m, h);
    InsertJoins(cmp, Items(m), x);
    AddToBucketValid(Started(m), h, x, InsertInOrder(cmp, Items(m), x));
  }

  // ---- deleting -------------------------------------------------------------------------------------------

  lemma InChain(m: Model, h: HashFunction, x: Item)
    requires Valid(m, h) && x in Items(m)
    ensures m.Table? && x in m.chains[Slot(h, x, |m.chains|)]
  {
  }

  lemma DistinctKeysNoDup(s: seq<Item>)
    requires DistinctKeys(s)
    ensures NoDup(s)
  {
  }

  lemma WithoutDistinct(s: seq<Item>, x: Item)
    requires x in s && DistinctKeys(s)
    ensures DistinctKeys(Without(s, x))
  {
    var i, r := IndexOf(s, x), Without(s, x);
    assert forall k | 0 <= k < |r| :: r[k] == s[if k < i then k else k + 1];
  }

  lemma DeletePlaced(m: Model, h: HashFunction, x: Item)
    requires Valid(m, h) && x in Items(m) && |m.items| > 1
    ensures Placed(h, Delete(m, h, x).items, Delete(m, h, x).chains)
    ensures ChainsNoDup(Delete(m, h, x).chains)
  {
    var n := |m.chains|;
    var j := Slot(h, x, n);
    var r := Delete(m, h, x);
    DistinctKeysNoDup(m.items);
    WithoutMembers(m.items, x);
    WithoutMembers(m.chains[j], x);
    forall i, k | 0 <= i < n && 0 <= k < |r.chains[i]|
      ensures r.chains[i][k] in r.items && Slot(h, r.chains[i][k], n) == i
    {
      var y := r.chains[i][k];
      assert y in m.chains[i];
      assert y != x;
    }
  }

  lemma DeleteCovered(m: Model, h: HashFunction, x: Item)
    requires Valid(m, h) && x in Items(m) && |m.items| > 1
    ensures Covered(h, Delete(m, h, x).items, Delete(m, h, x).chains)
  {
    var n := |m.chains|;
    var j := Slot(h, x, n);
    DistinctKeysNoDup(m.items);
    WithoutMembers(m.items, x);
    WithoutMembers(m.chains[j], x);
    forall y | y in Without(m.items, x)
      ensures y in Delete(m, h, x).chains[Slot(h, y, n)]
    {
      assert y in m.items && y in m.chains[Slot(h, y, n)];
    }
  }

  lemma DeleteCounts(m: Model, h: HashFunction, x: Item)
    requires Valid(m, h) && x in Items(m) && |m.items| > 1
    ensures Sum(Lens(Delete(m, h, x).chains)) == |m.items| - 1
  {
    var j := Slot(h, x, |m.chains|);
    LensUpdate(m.chains, j, Without(m.chains[j], x));
  }

  lemma DeleteLoaded(m: Model, h: HashFunction, x: Item)
    requires Valid(m, h) && x in Items(m) && |m.items| > 1
    ensures Loaded(Delete(m, h, x))
  {
    var j := Slot(h, x, |m.chains|);
    CapsUpdate(m.chains, m.mults, j, Without(m.chains[j], x));
  }

  lemma DeleteValid(m: Model, h: HashFunction, x: Item)
    requires Valid(m, h) && x in Items(m)
    ensures m.Table? && x in m.chains[Slot(h, x, |m.chains|)]
    ensures Valid(Delete(m, h, x), h)
    ensures Items(Delete(m, h, x)) == Without(Items(m), x)
  {
    InChain(m, h, x);
    if |m.items| > 1 {
      DeletePlaced(m, h, x);
      DeleteCovered(m, h, x);
      DeleteCounts(m, h, x);
      DeleteLoaded(m, h, x);
      WithoutDistinct(m.items, x);
    }
  }

  lemma LookupDeleted(m: Model, h: HashFunction, x: Item)
    requires Valid(m, h) && x in Items(m)
    ensures x in m.chains[Slot(h, x, |m.chains|)] && Fresh(Delete(m, h, x), x.key)
  {
    DeleteValid(m, h, x);
    DistinctKeysNoDup(m.items);
    WithoutMembers(m.items, x);
  }

  /** What is left for the new item to join. */
  ghost function Cleared(m: Model, h: HashFunction, k: Key): (r: Model)
    requires Valid(m, h)
    ensures Valid(r, h) && Fresh(r, k)
    ensures var y := Lookup(Items(m), k);
            Items(r) == if y == null then Items(m) else Without(Items(m), y)
  {
    var y := Lookup(Items(m), k);
    if y == null then m
    else
      LookupDeleted(m, h, y);
      DeleteValid(m, h, y);
      Delete(m, h, y)
  }

  lemma ClearedCases(m: Model, h: HashFunction, k: Key, y: Item?)
    requires Valid(m, h) && y == Lookup(Items(m), k)
    ensures y == null ==> Cleared(m, h, k) == m
    ensures y != null ==>
              && m.Table? && y in m.items && y in m.chains[Slot(h, y, |m.chains|)]
              && Cleared(m, h, k) == Delete(m, h, y)
  {
  }

  /** Remove whatever item has x's key, then add x. */
  ghost function Replace(m: Model, h: HashFunction, x: Item): (r: Model)
    requires Valid(m, h)
    ensures r.Table? && Shaped(r)
  {
    Add(Cleared(m, h, x.key), h, x)
  }

  /** After a replacement x is the one item with its key, last in application order, and the others stand. */
  lemma ReplaceValid(m: Model, h: HashFunction, x: Item)
    requires Valid(m, h)
    ensures Valid(Replace(m, h, x), h)
    ensures var y := Lookup(Items(m), x.key);
            Items(Replace(m, h, x)) == (if y == null then Items(m) else Without(Items(m), y)) + [x]
  {
    AddValid(Cleared(m, h, x.key), h, x);
  }

  /** A replacement adds to what is left without the old item, which may be nothing. */
  lemma ReplaceDoublesExactly(m: Model, h: HashFunction, x: Item)
    requires Valid(m, h)
    ensures var (s, r) := (Started(Cleared(m, h, x.key)), Replace(m, h, x));
            var j := h(x.key) % |s.chains|;
            && |r.chains| == (if !s.noexpand && |s.chains[j]| + 1 >= 10 * (s.mults[j] + 1) then 2 * |s.chains|
                              else |s.chains|)
            && (s.noexpand || |s.chains[j]| + 1 < 10 * (s.mults[j] + 1) ==>
                  r == s.(items := s.items + [x], chains := s.chains[j := [x] + s.chains[j]]))
  {
    AddDoublesExactly(Cleared(m, h, x.key), h, x);
  }

  /** A deletion empties nothing but the item's own place; only the last item takes the table with it. */
  lemma DeleteLeaves(m: Model, h: HashFunction, x: Item)
    requires Valid(m, h) && x in Items(m) && x in m.chains[Slot(h, x, |m.chains|)]
    ensures |m.items| == 1 <==> Delete(m, h, x).Absent?
    ensures |m.items| > 1 ==>
              var (r, j) := (Delete(m, h, x), h(x.key) % |m.chains|);
              && (forall i | 0 <= i < |m.chains| && i != j :: r.chains[i] == m.chains[i])
              && |r.chains[j]| == |m.chains[j]| - 1 && x !in r.chains[j]
              && r == m.(items := r.items, chains := r.chains) && |r.chains| == |m.chains|
  {
    WithoutMembers(m.chains[h(x.key) % |m.chains|], x);
  }

  // ---- sorting --------------------------------------------------------------------------------------------

  /** Sorting rearranges the application order and touches nothing else. */
  function Sort(m: Model, cmp: Comparator): (r: Model)
    requires m.Table? ==> Shaped(m)
    ensures r.Table? ==> Shaped(r)
  {
    if m.Absent? then m else WithItems(m, MergeSort(cmp, m.items))
  }

  lemma SameMembers(s: seq<Item>, t: seq<Item>)
    requires multiset(s) == multiset(t) && NoDup(s)
    ensures NoDup(t) && |t| == |s|
    ensures Among(t, s) && Among(s, t)
  {
    assert |multiset(s)| == |s| && |multiset(t)| == |t|;
    AmongSelf(s);
    AmongSelf(t);
    AmongPermuted(s, t, s);
    AmongPermuted(t, s, t);
    forall i, j | 0 <= i < j < |t|
      ensures t[i] != t[j]
    {
      if t[i] == t[j] {
        assert t == t[..j] + [t[j]] + t[j + 1..];
        assert t[i] in t[..j];
        assert multiset(t)[t[i]] >= 2;
        NoDupCounts(s, t[i]);
      }
    }
  }

  lemma AmongSelf(s: seq<Item>)
    ensures Among(s, s)
  {
  }

  lemma {:induction false} NoDupCounts(s: seq<Item>, x: Item)
    requires NoDup(s)
    ensures multiset(s)[x] <= 1
  {
    if s != [] {
      assert s == [s[0]] + s[1..];
      NoDupCounts(s[1..], x);
    }
  }

  lemma SortMembers(cmp: Comparator, s: seq<Item>)
    requires NoDup(s)
    ensures NoDup(MergeSort(cmp, s)) && Among(MergeSort(cmp, s), s) && Among(s, MergeSort(cmp, s))
  {
    PassesPermute(cmp, s, 1);
    SameMembers(s, MergeSort(cmp, s));
  }

  lemma PermutedDistinct(s: seq<Item>, t: seq<Item>)
    requires DistinctKeys(s) && NoDup(t) && Among(t, s)
    ensures DistinctKeys(t)
  {
    forall i, j | 0 <= i < j < |t|
      ensures t[i].key != t[j].key
    {
      assert t[i] in s && t[j] in s;
      var a :| 0 <= a < |s| && s[a] == t[i];
      var b :| 0 <= b < |s| && s[b] == t[j];
    }
  }

  lemma SortValid(m: Model, h: HashFunction, cmp: Comparator)
    requires Valid(m, h)
    ensures Valid(Sort(m, cmp), h) && multiset(Items(Sort(m, cmp))) == multiset(Items(m))
  {
    if m.Table? {
      var t := MergeSort(cmp, m.items);
      PassesPermute(cmp, m.items, 1);
      DistinctKeysNoDup(m.items);
      SortMembers(cmp, m.items);
      PermutedDistinct(m.items, t);
      RelistLinked(m, h, t);
    }
  }

  lemma RelistLinked(m: Model, h: HashFunction, t: seq<Item>)
    requires Shaped(m) && Linked(m, h) && DistinctKeys(t) && |t| == |m.items|
    requires Among(t, m.items) && Among(m.items, t)
    ensures Linked(WithItems(m, t), h)
  {
  }

  // ---- finding --------------------------------------------------------------------------------------------

  /** Searching one bucket finds exactly what searching every item would find. */
  lemma FindIsLookup(m: Model, h: HashFunction, k: Key)
    requires Valid(m, h)
    ensures Find(m, h, k) == Lookup(Items(m), k)
  {
    var r := Lookup(Items(m), k);
    if m.Table? {
      var c := m.chains[h(k) % |m.chains|];
      var f := Lookup(c, k);
      if r != null {
        assert r in c;
      }
      if f != null {
        assert f in m.items;
        var i :| 0 <= i < |m.items| && m.items[i] == f;
        var i' :| 0 <= i' < |m.items| && m.items[i'] == r;
      }
    }
  }
}
