/** What HASH_SRT computes: a bottom-up merge sort, and why its result is the stable sort of its input. */
module UthashSort {
  import opened Seqs
  import opened UthashTypes
  import opened UthashSpec

  function Min(a: nat, b: nat): nat {
    if a <= b then a else b
  }

  /** Two runs merged; the left one wins ties. */
  function Merge(cmp: Comparator, a: seq<Item>, b: seq<Item>): (r: seq<Item>)
    ensures |r| == |a| + |b|
  {
    if a == [] then b
    else if b == [] then a
    else if cmp(a[0], b[0]) <= 0 then [a[0]] + Merge(cmp, a[1..], b)
    else [b[0]] + Merge(cmp, a, b[1..])
  }

  /** One pass: merge neighbouring runs of length k. */
  function Pass(cmp: Comparator, s: seq<Item>, k: nat): (r: seq<Item>)
    requires k > 0
    ensures |r| == |s|
  {
    if s == [] then []
    else
      var m, n := Min(k, |s|), Min(2 * k, |s|);
      Merge(cmp, s[..m], s[m..n]) + Pass(cmp, s[n..], k)
  }

  /** Passes with doubling run length, until one of them needed at most one merge. */
  function Passes(cmp: Comparator, s: seq<Item>, k: nat): (r: seq<Item>)
    requires k > 0
    ensures |r| == |s|
    decreases |s| - k
  {
    var t := Pass(cmp, s, k);
    if |s| <= 2 * k then t else Passes(cmp, t, 2 * k)
  }

  function MergeSort(cmp: Comparator, s: seq<Item>): (r: seq<Item>)
    ensures |r| == |s|
  {
    Passes(cmp, s, 1)
  }

  // ---- a permutation --------------------------------------------------------------------------------------

  lemma {:induction false} MergePermutes(cmp: Comparator, a: seq<Item>, b: seq<Item>)
    ensures multiset(Merge(cmp, a, b)) == multiset(a) + multiset(b)
  {
    if a != [] && b != [] {
      assert a == [a[0]] + a[1..] && b == [b[0]] + b[1..];
      if cmp(a[0], b[0]) <= 0 {
        MergePermutes(cmp, a[1..], b);
      } else {
        MergePermutes(cmp, a, b[1..]);
      }
    }
  }

  lemma {:induction false} PassPermutes(cmp: Comparator, s: seq<Item>, k: nat)
    requires k > 0
    ensures multiset(Pass(cmp, s, k)) == multiset(s)
  {
    if s != [] {
      var m, n := Min(k, |s|), Min(2 * k, |s|);
      assert s == s[..m] + s[m..n] + s[n..];
      MergePermutes(cmp, s[..m], s[m..n]);
      PassPermutes(cmp, s[n..], k);
    }
  }

  lemma {:induction false} PassesPermute(cmp: Comparator, s: seq<Item>, k: nat)
    requires k > 0
    ensures multiset(Passes(cmp, s, k)) == multiset(s)
    decreases |s| - k
  {
    PassPermutes(cmp, s, k);
    if |s| > 2 * k {
      PassesPermute(cmp, Pass(cmp, s, k), 2 * k);
    }
  }

  // ---- sorted ---------------------------------------------------------------------------------------------

  /** The comparator is a total preorder on these items. */
  ghost predicate Orders(cmp: Comparator, s: seq<Item>) {
    && (forall x, y {:trigger cmp(x, y)} | x in s && y in s :: cmp(x, y) <= 0 || cmp(y, x) <= 0)
    && (forall x, y, z {:trigger cmp(x, y), cmp(y, z)} | x in s && y in s && z in s ::
          cmp(x, y) <= 0 && cmp(y, z) <= 0 ==> cmp(x, z) <= 0)
  }

  ghost predicate Sorted(cmp: Comparator, s: seq<Item>) {
    forall i, j | 0 <= i < j < |s| :: cmp(s[i], s[j]) <= 0
  }

  ghost predicate Below(cmp: Comparator, x: Item, s: seq<Item>) {
    forall i | 0 <= i < |s| :: cmp(x, s[i]) <= 0
  }

  lemma SortedCons(cmp: Comparator, x: Item, s: seq<Item>)
    requires Sorted(cmp, s) && Below(cmp, x, s)
    ensures Sorted(cmp, [x] + s)
  {
  }

  lemma {:induction false} MergeBelow(cmp: Comparator, x: Item, a: seq<Item>, b: seq<Item>)
    requires Below(cmp, x, a) && Below(cmp, x, b)
    ensures Below(cmp, x, Merge(cmp, a, b))
  {
    if a != [] && b != [] {
      if cmp(a[0], b[0]) <= 0 {
        MergeBelow(cmp, x, a[1..], b);
      } else {
        MergeBelow(cmp, x, a, b[1..]);
      }
    }
  }

  lemma HeadBelow(cmp: Comparator, x: Item, s: seq<Item>, all: seq<Item>)
    requires s != [] && Sorted(cmp, s) && Orders(cmp, all)
    requires x in all && (forall i | 0 <= i < |s| :: s[i] in all) && cmp(x, s[0]) <= 0
    ensures Below(cmp, x, s)
  {
  }

  ghost predicate Among(s: seq<Item>, all: seq<Item>) {
    forall i | 0 <= i < |s| :: s[i] in all
  }

  lemma {:induction false} MergeSorted(cmp: Comparator, a: seq<Item>, b: seq<Item>, all: seq<Item>)
    requires Orders(cmp, all) && Among(a, all) && Among(b, all)
    requires Sorted(cmp, a) && Sorted(cmp, b)
    ensures Sorted(cmp, Merge(cmp, a, b))
  {
    if a != [] && b != [] {
      if cmp(a[0], b[0]) <= 0 {
        MergeSorted(cmp, a[1..], b, all);
        HeadBelow(cmp, a[0], b, all);
        MergeBelow(cmp, a[0], a[1..], b);
        SortedCons(cmp, a[0], Merge(cmp, a[1..], b));
      } else {
        MergeSorted(cmp, a, b[1..], all);
        HeadBelow(cmp, b[0], a, all);
        MergeBelow(cmp, b[0], a, b[1..]);
        SortedCons(cmp, b[0], Merge(cmp, a, b[1..]));
      }
    }
  }

  /** Cut into runs of length k, every run is sorted. */
  ghost predicate Runs(cmp: Comparator, s: seq<Item>, k: nat)
    requires k > 0
    decreases |s|
  {
    s == [] || (Sorted(cmp, s[..Min(k, |s|)]) && Runs(cmp, s[Min(k, |s|)..], k))
  }

  lemma {:induction false} SingletonRuns(cmp: Comparator, s: seq<Item>)
    ensures Runs(cmp, s, 1)
  {
    if s != [] {
      SingletonRuns(cmp, s[1..]);
    }
  }

  lemma {:induction false} PassDoublesRuns(cmp: Comparator, s: seq<Item>, k: nat, all: seq<Item>)
    requires k > 0 && Orders(cmp, all) && Among(s, all) && Runs(cmp, s, k)
    ensures Runs(cmp, Pass(cmp, s, k), 2 * k)
  {
    if s != [] {
      var m, n := Min(k, |s|), Min(2 * k, |s|);
      var r := Merge(cmp, s[..m], s[m..n]);
      var t := Pass(cmp, s, k);
      if m < |s| {
        assert s[m..][..Min(k, |s[m..]|)] == s[m..n] && s[m..][Min(k, |s[m..]|)..] == s[n..];
      } else {
        assert s[m..n] == [] && s[n..] == [];
      }
      MergeSorted(cmp, s[..m], s[m..n], all);
      PassDoublesRuns(cmp, s[n..], k, all);
      assert t[..n] == r && t[n..] == Pass(cmp, s[n..], k);
    }
  }

  lemma {:induction false} PassesSort(cmp: Comparator, s: seq<Item>, k: nat, all: seq<Item>)
    requires k > 0 && Orders(cmp, all) && Among(s, all) && Runs(cmp, s, k)
    ensures Sorted(cmp, Passes(cmp, s, k))
    decreases |s| - k
  {
    var t := Pass(cmp, s, k);
    PassDoublesRuns(cmp, s, k, all);
    if |s| <= 2 * k {
      assert t[..|t|] == t;
    } else {
      PassPermutes(cmp, s, k);
      AmongPermuted(s, t, all);
      PassesSort(cmp, t, 2 * k, all);
    }
  }

  lemma AmongPermuted(s: seq<Item>, t: seq<Item>, all: seq<Item>)
    requires Among(s, all) && multiset(t) == multiset(s)
    ensures Among(t, all)
  {
    forall i | 0 <= i < |t|
      ensures t[i] in all
    {
      assert t[i] in multiset(s);
    }
  }

  // ---- stable ---------------------------------------------------------------------------------------------

  predicate Same(cmp: Comparator, x: Item, y: Item) {
    cmp(x, y) <= 0 && cmp(y, x) <= 0
  }

  /** The items that compare equal to e, in the order they stand. */
  function Ties(cmp: Comparator, e: Item, s: seq<Item>): seq<Item> {
    if s == [] then []
    else (if Same(cmp, e, s[0]) then [s[0]] else []) + Ties(cmp, e, s[1..])
  }

  lemma {:induction false} TiesAppend(cmp: Comparator, e: Item, a: seq<Item>, b: seq<Item>)
    ensures Ties(cmp, e, a + b) == Ties(cmp, e, a) + Ties(cmp, e, b)
  {
    if a == [] {
      assert a + b == b;
    } else {
      TiesAppend(cmp, e, a[1..], b);
      assert a + b == [a[0]] + (a[1..] + b);
      TiesHead(cmp, e, a[0], a[1..] + b);
      Associate(if Same(cmp, e, a[0]) then [a[0]] else [], Ties(cmp, e, a[1..]), Ties(cmp, e, b));
    }
  }

  /** No item of a sorted run compares equal to e when the run's first item is already past e. */
  lemma {:induction false} NoTies(cmp: Comparator, e: Item, a: seq<Item>)
    requires forall i | 0 <= i < |a| :: cmp(a[i], e) > 0
    ensures Ties(cmp, e, a) == []
  {
    if a != [] {
      NoTies(cmp, e, a[1..]);
    }
  }

  lemma PastTies(cmp: Comparator, e: Item, a: seq<Item>, x: Item, all: seq<Item>)
    requires Orders(cmp, all) && Among(a, all) && e in all && x in all && Sorted(cmp, a)
    requires a != [] && cmp(a[0], x) > 0 && Same(cmp, e, x)
    ensures Ties(cmp, e, a) == []
  {
    forall i | 0 <= i < |a|
      ensures cmp(a[i], e) > 0
    {
      assert a[0] in all && a[i] in all;
      assert i == 0 || cmp(a[0], a[i]) <= 0;
    }
    NoTies(cmp, e, a);
  }

  lemma TiesHead(cmp: Comparator, e: Item, x: Item, s: seq<Item>)
    ensures Ties(cmp, e, [x] + s) == (if Same(cmp, e, x) then [x] else []) + Ties(cmp, e, s)
  {
    assert ([x] + s)[1..] == s;
  }

  lemma StableFromLeft(cmp: Comparator, e: Item, a: seq<Item>, b: seq<Item>)
    requires a != [] && b != [] && cmp(a[0], b[0]) <= 0
    requires Ties(cmp, e, Merge(cmp, a[1..], b)) == Ties(cmp, e, a[1..]) + Ties(cmp, e, b)
    ensures Ties(cmp, e, Merge(cmp, a, b)) == Ties(cmp, e, a) + Ties(cmp, e, b)
  {
    TiesHead(cmp, e, a[0], Merge(cmp, a[1..], b));
    Associate(if Same(cmp, e, a[0]) then [a[0]] else [], Ties(cmp, e, a[1..]), Ties(cmp, e, b));
  }

  lemma StableFromRight(cmp: Comparator, e: Item, a: seq<Item>, b: seq<Item>)
    requires a != [] && b != [] && cmp(a[0], b[0]) > 0
    requires Same(cmp, e, b[0]) ==> Ties(cmp, e, a) == []
    requires Ties(cmp, e, Merge(cmp, a, b[1..])) == Ties(cmp, e, a) + Ties(cmp, e, b[1..])
    ensures Ties(cmp, e, Merge(cmp, a, b)) == Ties(cmp, e, a) + Ties(cmp, e, b)
  {
    TiesHead(cmp, e, b[0], Merge(cmp, a, b[1..]));
    Swap(if Same(cmp, e, b[0]) then [b[0]] else [], Ties(cmp, e, a), Ties(cmp, e, b[1..]));
  }

  lemma {:induction false} MergeStable(cmp: Comparator, e: Item, a: seq<Item>, b: seq<Item>, all: seq<Item>)
    requires Orders(cmp, all) && Among(a, all) && Among(b, all) && e in all && Sorted(cmp, a)
    ensures Ties(cmp, e, Merge(cmp, a, b)) == Ties(cmp, e, a) + Ties(cmp, e, b)
  {
    if a != [] && b != [] {
      if cmp(a[0], b[0]) <= 0 {
        MergeStable(cmp, e, a[1..], b, all);
        StableFromLeft(cmp, e, a, b);
      } else {
        MergeStable(cmp, e, a, b[1..], all);
        if Same(cmp, e, b[0]) {
          PastTies(cmp, e, a, b[0], all);
        }
        StableFromRight(cmp, e, a, b);
      }
    }
  }

  lemma TiesCut(cmp: Comparator, e: Item, s: seq<Item>, m: nat)
    requires m <= |s|
    ensures Ties(cmp, e, s) == Ties(cmp, e, s[..m]) + Ties(cmp, e, s[m..])
  {
    assert s == s[..m] + s[m..];
    TiesAppend(cmp, e, s[..m], s[m..]);
  }

  lemma SecondRun(s: seq<Item>, m: nat, n: nat)
    requires m <= n <= |s|
    ensures s[m..][..n - m] == s[m..n] && s[m..][n - m..] == s[n..]
  {
  }

  /** The ties of a list whose first two runs are cut off. */
  lemma TiesCutTwice(cmp: Comparator, e: Item, s: seq<Item>, m: nat, n: nat)
    requires m <= n <= |s|
    ensures Ties(cmp, e, s) == (Ties(cmp, e, s[..m]) + Ties(cmp, e, s[m..n])) + Ties(cmp, e, s[n..])
  {
    SecondRun(s, m, n);
    TiesCut(cmp, e, s, m);
    TiesCut(cmp, e, s[m..], n - m);
    Associate(Ties(cmp, e, s[..m]), Ties(cmp, e, s[m..n]), Ties(cmp, e, s[n..]));
  }

  lemma RunsCut(cmp: Comparator, s: seq<Item>, k: nat)
    requires k > 0 && s != [] && Runs(cmp, s, k)
    ensures var (m, n) := (Min(k, |s|), Min(2 * k, |s|));
            Sorted(cmp, s[..m]) && Runs(cmp, s[n..], k)
  {
    var m, n := Min(k, |s|), Min(2 * k, |s|);
    SecondRun(s, m, n);
    if m < |s| {
      assert Min(k, |s[m..]|) == n - m;
    } else {
      assert s[n..] == [];
    }
  }

  lemma {:induction false} PassStable(cmp: Comparator, e: Item, s: seq<Item>, k: nat, all: seq<Item>)
    requires k > 0 && Orders(cmp, all) && Among(s, all) && e in all && Runs(cmp, s, k)
    ensures Ties(cmp, e, Pass(cmp, s, k)) == Ties(cmp, e, s)
  {
    if s != [] {
      var m, n := Min(k, |s|), Min(2 * k, |s|);
      RunsCut(cmp, s, k);
      MergeStable(cmp, e, s[..m], s[m..n], all);
      PassStable(cmp, e, s[n..], k, all);
      TiesAppend(cmp, e, Merge(cmp, s[..m], s[m..n]), Pass(cmp, s[n..], k));
      TiesCutTwice(cmp, e, s, m, n);
    }
  }

  lemma {:induction false} PassesStable(cmp: Comparator, e: Item, s: seq<Item>, k: nat, all: seq<Item>)
    requires k > 0 && Orders(cmp, all) && Among(s, all) && e in all && Runs(cmp, s, k)
    ensures Ties(cmp, e, Passes(cmp, s, k)) == Ties(cmp, e, s)
    decreases |s| - k
  {
    var t := Pass(cmp, s, k);
    PassStable(cmp, e, s, k, all);
    if |s| > 2 * k {
      PassDoublesRuns(cmp, s, k, all);
      PassPermutes(cmp, s, k);
      AmongPermuted(s, t, all);
      PassesStable(cmp, e, t, 2 * k, all);
    }
  }

  ghost predicate SameTies(cmp: Comparator, a: seq<Item>, b: seq<Item>, all: seq<Item>) {
    forall e {:trigger Ties(cmp, e, a)} | e in all :: Ties(cmp, e, a) == Ties(cmp, e, b)
  }

  /** t is s put in order, items that compare equal keeping their relative order. */
  ghost predicate StableSortOf(cmp: Comparator, t: seq<Item>, s: seq<Item>) {
    && multiset(t) == multiset(s)
    && Sorted(cmp, t)
    && SameTies(cmp, t, s, s)
  }

  lemma MergeSortIsStableSort(cmp: Comparator, s: seq<Item>)
    requires Orders(cmp, s)
    ensures StableSortOf(cmp, MergeSort(cmp, s), s)
  {
    SingletonRuns(cmp, s);
    PassesPermute(cmp, s, 1);
    PassesSort(cmp, s, 1, s);
    forall e | e in s
      ensures Ties(cmp, e, MergeSort(cmp, s)) == Ties(cmp, e, s)
    {
      PassesStable(cmp, e, s, 1, s);
    }
  }

  // ---- the one stable sort, and sorting by insertion ------------------------------------------------------

  lemma {:induction false} StableSortUnique(cmp: Comparator, a: seq<Item>, b: seq<Item>, all: seq<Item>)
    requires Orders(cmp, all) && Among(a, all) && Among(b, all)
    requires Sorted(cmp, a) && Sorted(cmp, b) && multiset(a) == multiset(b)
    requires SameTies(cmp, a, b, all)
    ensures a == b
  {
    if a == [] {
      assert |multiset(b)| == |b|;
    } else {
      assert |multiset(a)| == |a| && |multiset(b)| == |b|;
      SameHead(cmp, a, b, all);
      TailsAgree(cmp, a, b, all);
      StableSortUnique(cmp, a[1..], b[1..], all);
      assert a == [a[0]] + a[1..] && b == [b[0]] + b[1..];
    }
  }

  lemma TailsAgree(cmp: Comparator, a: seq<Item>, b: seq<Item>, all: seq<Item>)
    requires a != [] && b != [] && a[0] == b[0] && multiset(a) == multiset(b) && SameTies(cmp, a, b, all)
    ensures multiset(a[1..]) == multiset(b[1..]) && SameTies(cmp, a[1..], b[1..], all)
  {
    assert a == [a[0]] + a[1..] && b == [b[0]] + b[1..];
    assert multiset(a[1..]) == multiset(a) - multiset{a[0]} == multiset(b[1..]);
    forall e | e in all
      ensures Ties(cmp, e, a[1..]) == Ties(cmp, e, b[1..])
    {
      TailTies(cmp, e, a, b);
    }
  }

  lemma TailTies(cmp: Comparator, e: Item, a: seq<Item>, b: seq<Item>)
    requires a != [] && b != [] && a[0] == b[0] && Ties(cmp, e, a) == Ties(cmp, e, b)
    ensures Ties(cmp, e, a[1..]) == Ties(cmp, e, b[1..])
  {
    DropPrefix(if Same(cmp, e, a[0]) then [a[0]] else [], Ties(cmp, e, a[1..]), Ties(cmp, e, b[1..]));
  }

  lemma DropPrefix(h: seq<Item>, x: seq<Item>, y: seq<Item>)
    requires h + x == h + y
    ensures x == y
  {
    assert x == (h + x)[|h|..] && y == (h + y)[|h|..];
  }

  lemma SameHead(cmp: Comparator, a: seq<Item>, b: seq<Item>, all: seq<Item>)
    requires Orders(cmp, all) && Among(a, all) && Among(b, all) && a != [] && b != []
    requires Sorted(cmp, a) && Sorted(cmp, b) && multiset(a) == multiset(b)
    requires SameTies(cmp, a, b, all)
    ensures a[0] == b[0]
  {
    assert a[0] in multiset(b) && b[0] in multiset(a);
    var i :| 0 <= i < |b| && b[i] == a[0];
    var j :| 0 <= j < |a| && a[j] == b[0];
    assert cmp(a[0], a[0]) <= 0 && cmp(b[0], b[0]) <= 0;
    assert cmp(b[0], b[i]) <= 0 && cmp(a[0], a[j]) <= 0;
    assert Ties(cmp, a[0], a)[0] == a[0] && Ties(cmp, a[0], b)[0] == b[0];
  }

  lemma TiesAround(cmp: Comparator, e: Item, a: seq<Item>, x: Item, b: seq<Item>)
    requires Same(cmp, e, x) ==> Ties(cmp, e, b) == []
    ensures Ties(cmp, e, a + [x] + b) == Ties(cmp, e, a + b + [x])
  {
    assert a + [x] + b == a + ([x] + b) && [x] + [] == [x];
    TiesAppend(cmp, e, a, [x] + b);
    TiesHead(cmp, e, x, b);
    TiesHead(cmp, e, x, []);
    TiesAppend(cmp, e, a + b, [x]);
    TiesAppend(cmp, e, a, b);
    ToTheEnd(Ties(cmp, e, a), Ties(cmp, e, [x]), Ties(cmp, e, b));
  }

  lemma InsertTies(cmp: Comparator, e: Item, s: seq<Item>, x: Item, all: seq<Item>)
    requires Orders(cmp, all) && Among(s, all) && x in all && e in all && Sorted(cmp, s)
    ensures Ties(cmp, e, InsertInOrder(cmp, s, x)) == Ties(cmp, e, s + [x])
  {
    var k := Ahead(cmp, s, x);
    if k < |s| && Same(cmp, e, x) {
      PastTies(cmp, e, s[k..], x, all);
    }
    TiesAround(cmp, e, s[..k], x, s[k..]);
    Rejoin(s, k);
  }

  lemma SortedConcat(cmp: Comparator, a: seq<Item>, b: seq<Item>)
    requires Sorted(cmp, a) && Sorted(cmp, b)
    requires forall i, j | 0 <= i < |a| && 0 <= j < |b| :: cmp(a[i], b[j]) <= 0
    ensures Sorted(cmp, a + b)
  {
  }

  lemma RestAbove(cmp: Comparator, s: seq<Item>, x: Item, all: seq<Item>, i: nat)
    requires Orders(cmp, all) && Among(s, all) && x in all && Sorted(cmp, s)
    requires Ahead(cmp, s, x) <= i < |s|
    ensures cmp(s[i], x) > 0 && cmp(x, s[i]) <= 0
  {
    var k := Ahead(cmp, s, x);
    assert s[i] in all && s[k] in all;
    assert i == k || cmp(s[k], s[i]) <= 0;
  }

  lemma InsertBetween(cmp: Comparator, s: seq<Item>, x: Item)
    requires Sorted(cmp, s)
    requires forall i | Ahead(cmp, s, x) <= i < |s| :: cmp(x, s[i]) <= 0
    ensures Sorted(cmp, InsertInOrder(cmp, s, x))
    ensures multiset(InsertInOrder(cmp, s, x)) == multiset(s) + multiset{x}
  {
    var k := Ahead(cmp, s, x);
    SortedParts(cmp, s, k);
    SortedAround(cmp, s[..k], x, s[k..]);
    InsertPermutes(s, k, x);
  }

  lemma SortedParts(cmp: Comparator, s: seq<Item>, k: nat)
    requires Sorted(cmp, s) && k <= |s|
    ensures Sorted(cmp, s[..k]) && Sorted(cmp, s[k..])
    ensures forall i, j | 0 <= i < |s[..k]| && 0 <= j < |s[k..]| :: cmp(s[..k][i], s[k..][j]) <= 0
  {
  }

  lemma SortedAround(cmp: Comparator, a: seq<Item>, x: Item, b: seq<Item>)
    requires Sorted(cmp, a) && Sorted(cmp, b)
    requires forall i, j | 0 <= i < |a| && 0 <= j < |b| :: cmp(a[i], b[j]) <= 0
    requires (forall i | 0 <= i < |a| :: cmp(a[i], x) <= 0) && (forall j | 0 <= j < |b| :: cmp(x, b[j]) <= 0)
    ensures Sorted(cmp, a + [x] + b)
  {
    SortedConcat(cmp, a, [x]);
    SortedConcat(cmp, a + [x], b);
  }

  lemma InsertPermutes(s: seq<Item>, k: nat, x: Item)
    requires k <= |s|
    ensures multiset(s[..k] + [x] + s[k..]) == multiset(s) + multiset{x}
  {
    assert s == s[..k] + s[k..];
  }

  /** Insertion puts x after everything that compares no greater, and before everything greater. */
  lemma InsertSorted(cmp: Comparator, s: seq<Item>, x: Item, all: seq<Item>)
    requires Orders(cmp, all) && Among(s, all) && x in all && Sorted(cmp, s)
    ensures Sorted(cmp, InsertInOrder(cmp, s, x))
    ensures multiset(InsertInOrder(cmp, s, x)) == multiset(s) + multiset{x}
    ensures var k := Ahead(cmp, s, x);
            (forall i | 0 <= i < k :: cmp(s[i], x) <= 0) && (forall i | k <= i < |s| :: cmp(s[i], x) > 0)
  {
    forall i | Ahead(cmp, s, x) <= i < |s|
      ensures cmp(s[i], x) > 0 && cmp(x, s[i]) <= 0
    {
      RestAbove(cmp, s, x, all, i);
    }
    InsertBetween(cmp, s, x);
  }

  /** The application order after adding these items one by one with the ordered insertion. */
  function InsertAll(cmp: Comparator, xs: seq<Item>): seq<Item> {
    if xs == [] then [] else InsertInOrder(cmp, InsertAll(cmp, xs[..|xs| - 1]), xs[|xs| - 1])
  }

  lemma {:induction false} InsertAllIsStableSort(cmp: Comparator, xs: seq<Item>, all: seq<Item>)
    requires Orders(cmp, all) && Among(xs, all)
    ensures multiset(InsertAll(cmp, xs)) == multiset(xs) && Sorted(cmp, InsertAll(cmp, xs))
    ensures SameTies(cmp, InsertAll(cmp, xs), xs, all)
  {
    if xs != [] {
      var rest, x := xs[..|xs| - 1], xs[|xs| - 1];
      var s := InsertAll(cmp, rest);
      InsertAllIsStableSort(cmp, rest, all);
      assert xs == rest + [x];
      AmongPermuted(rest, s, all);
      InsertSorted(cmp, s, x, all);
      forall e | e in all
        ensures Ties(cmp, e, InsertInOrder(cmp, s, x)) == Ties(cmp, e, rest + [x])
      {
        InsertTies(cmp, e, s, x, all);
        TiesAppend(cmp, e, s, [x]);
        TiesAppend(cmp, e, rest, [x]);
      }
    }
  }

  /** Adding items in order one at a time gives the very list that adding them and then sorting gives. */
  lemma SortingIsInserting(cmp: Comparator, xs: seq<Item>)
    requires Orders(cmp, xs)
    ensures MergeSort(cmp, xs) == InsertAll(cmp, xs)
  {
    MergeSortIsStableSort(cmp, xs);
    InsertAllIsStableSort(cmp, xs, xs);
    AmongPermuted(xs, MergeSort(cmp, xs), xs);
    AmongPermuted(xs, InsertAll(cmp, xs), xs);
    StableSortUnique(cmp, MergeSort(cmp, xs), InsertAll(cmp, xs), xs);
  }
}
