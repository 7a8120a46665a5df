/** The hash table itself: the head the application holds, the table hanging off it, and the macros as methods
    that update both in place. Each is proved to follow the corresponding function of UthashSpec. */
module UthashTable {
  import opened Bits
  import opened Seqs
  import opened UthashTypes
  import opened UthashSpec
  import opened UthashLaws
  import opened UthashLinks
  import opened UthashExpansion
  import UthashRelink
  import UthashSort

  ghost predicate BucketHolds(b: Bucket, c: seq<Item>)
    reads c`hhNext, c`hhPrev
  {
    b.hhHead == At(c, 0) && b.count == |c| && ChainLinked(c)
  }

  /** Bucket order: heads, counts and links, for chains made of these items. */
  ghost predicate BucketsHold(bs: seq<Bucket>, chains: seq<seq<Item>>, items: seq<Item>)
    reads items`hhNext, items`hhPrev
  {
    && |bs| == |chains|
    && (forall j, i | 0 <= j < |chains| && 0 <= i < |chains[j]| :: chains[j][i] in items)
    && forall j | 0 <= j < |bs| :: BucketHolds(bs[j], chains[j])
  }

  function MultsOf(bs: seq<Bucket>): (s: seq<nat>)
    ensures |s| == |bs|
  {
    seq(|bs|, j requires 0 <= j < |bs| => bs[j].expandMult)
  }

  ghost predicate BackLinked(c: seq<Item>)
    reads c`hhPrev
  {
    forall i {:trigger c[i].hhPrev} | 0 <= i < |c| :: c[i].hhPrev == At(c, i - 1)
  }

  ghost predicate AppNextLinked(s: seq<Item>)
    reads s`next
  {
    forall i {:trigger s[i].next} | 0 <= i < |s| :: s[i].next == At(s, i + 1)
  }

  ghost predicate AppBackLinked(s: seq<Item>)
    reads s`prev
  {
    forall i {:trigger s[i].prev} | 0 <= i < |s| :: s[i].prev == At(s, i - 1)
  }

  ghost predicate NextLinked(c: seq<Item>, k: nat)
    reads c`hhNext
  {
    forall i {:trigger c[i].hhNext} | k <= i < |c| :: c[i].hhNext == At(c, i + 1)
  }

  /** Put x at the front of bucket j, which then has the given multiplier. */
  method PushBucket(bs: array<Bucket>, x: Item, j: nat, mult: nat,
                    ghost h: HashFunction, ghost items: seq<Item>, ghost c: seq<seq<Item>>)
    requires BucketsHold(bs[..], c, items) && x in items && j < bs.Length
    requires Placed(h, items, c) && NoDup(c[j]) && x !in c[j] && Slot(h, x, |c|) == j
    modifies bs, x`hhNext, x`hhPrev, c[j]`hhPrev
    ensures BucketsHold(bs[..], c[j := [x] + c[j]], items)
    ensures bs[..] == old(bs[..])[j := Bucket(x, |c[j]| + 1, mult)]
  {
    var b := bs[j];
    PushFront(x, b.hhHead, c[j]);
    bs[j] := Bucket(x, b.count + 1, mult);
    forall i | 0 <= i < bs.Length
      ensures BucketHolds(bs[..][i], c[j := [x] + c[j]][i])
    {
      assert BucketHolds(old(bs[..])[i], c[i]) || i == j;
    }
  }

  /** Take x out of bucket j. */
  method PopBucket(bs: array<Bucket>, x: Item, j: nat, ghost h: HashFunction, ghost items: seq<Item>,
      ghost c: seq<seq<Item>>)
    requires BucketsHold(bs[..], c, items) && j < bs.Length
    requires Placed(h, items, c) && NoDup(c[j]) && x in c[j]
    modifies bs, c[j]`hhNext, c[j]`hhPrev
    ensures BucketsHold(bs[..], c[j := Without(c[j], x)], items)
    ensures MultsOf(bs[..]) == old(MultsOf(bs[..]))
  {
    var b := bs[j];
    ghost var k := IndexOf(c[j], x);
    assert BucketHolds(bs[..][j], c[j]);
    ghost var r := Without(c[j], x);
    assert r == c[j][..k] + c[j][k + 1..];
    ChainsApart(h, items, c, j);
    bs[j] := Bucket(if b.hhHead == x then x.hhNext else b.hhHead, b.count - 1, b.expandMult);
    UnlinkFromChain(x, c[j], k);
    assert BucketHolds(bs[j], r);
    forall i | 0 <= i < bs.Length
      ensures BucketHolds(bs[..][i], c[j := r][i])
    {
      assert BucketHolds(old(bs[..])[i], c[i]) || i == j;
    }
  }

  lemma ChainsApart(h: HashFunction, items: seq<Item>, c: seq<seq<Item>>, j: nat)
    requires j < |c| && Placed(h, items, c)
    ensures forall i, a | 0 <= i < |c| && i != j && 0 <= a < |c[i]| :: c[i][a] !in c[j]
  {
  }

  /** The first n buckets have the right counts and back-links. */
  ghost predicate BucketsCheck(bs: seq<Bucket>, chains: seq<seq<Item>>, items: seq<Item>, n: nat)
    requires n <= |bs| == |chains|
    requires forall j, i | 0 <= j < |chains| && 0 <= i < |chains[j]| :: chains[j][i] in items
    reads items`hhPrev
  {
    forall j | 0 <= j < n :: bs[j].count == |chains[j]| && BackLinked(chains[j])
  }

  lemma BucketsCheckNext(bs: seq<Bucket>, chains: seq<seq<Item>>, items: seq<Item>, n: nat)
    requires n < |bs| == |chains|
    requires forall j, i | 0 <= j < |chains| && 0 <= i < |chains[j]| :: chains[j][i] in items
    ensures BucketsCheck(bs, chains, items, n + 1)
       <==> BucketsCheck(bs, chains, items, n) && bs[n].count == |chains[n]| && BackLinked(chains[n])
  {
  }

  lemma NewMults(before: seq<Bucket>, after: seq<Bucket>, b: nat)
    requires b < |before| && |after| == |before| && after == before[b := after[b]]
    ensures MultsOf(after) == MultsOf(before)[b := after[b].expandMult]
  {
  }

  /** Every bucket's multiplier says how often the ideal length goes into its count, and is 0 for one within it. */
  predicate MultsFit(bs: seq<Bucket>, ideal: nat) {
    forall j | 0 <= j < |bs| ::
      && (bs[j].count <= ideal ==> bs[j].expandMult == 0)
      && (bs[j].count > ideal ==>
            bs[j].expandMult * ideal <= bs[j].count < (bs[j].expandMult + 1) * ideal)
  }

  lemma FittedMults(bs: seq<Bucket>, chains: seq<seq<Item>>, items: seq<Item>, ideal: nat)
    requires BucketsHold(bs, chains, items) && ideal > 0 && MultsOf(bs) == Mults(chains, ideal)
    ensures MultsFit(bs, ideal)
  {
    forall j | 0 <= j < |bs|
      ensures bs[j].count <= ideal ==> bs[j].expandMult == 0
      ensures bs[j].count > ideal ==> bs[j].expandMult * ideal <= bs[j].count < (bs[j].expandMult + 1) * ideal
    {
      assert BucketHolds(bs[j], chains[j]) && MultsOf(bs)[j] == MultFor(|chains[j]|, ideal);
      MultiplierFits(|chains[j]|, ideal);
    }
  }

  class HashTable {
    const hash: HashFunction

    var head: Item?
    var tail: Item?
    var buckets: array<Bucket>
    var numBuckets: nat
    var log2NumBuckets: nat
    var numItems: nat
    var idealChainMaxlen: nat
    var nonidealItems: nat
    var ineffExpands: nat
    var noexpand: bool

    /** The items in application order, and bucket by bucket. */
    ghost var items: seq<Item>
    ghost var chains: seq<seq<Item>>

    /** The value this table represents. */
    ghost function Table0(): Model
      reads this, buckets
    {
      Table(items, chains, MultsOf(buckets[..]), log2NumBuckets, idealChainMaxlen, nonidealItems, ineffExpands,
              noexpand)
    }

    ghost function Abs(): Model
      reads this, buckets
    {
      if head == null then Absent else Table0()
    }

    ghost predicate Sized()
      reads `buckets, `numBuckets, `log2NumBuckets, `chains
    {
      buckets.Length == numBuckets == |chains| == Pow2(log2NumBuckets)
    }

    /** Application order: back-links, head and tail. */
    ghost predicate Ordered()
      reads `head, `tail, `items, items`next, items`prev
    {
      && items != [] && NoDup(items) && AppLinked(items)
      && head == items[0] && tail == items[|items| - 1]
    }

    ghost predicate Hashed()
      reads `items, items`hashv
    {
      forall x | x in items :: x.hashv == hash(x.key)
    }

    /** Bucket order: heads, counts and back-links. */
    ghost predicate Bucketed()
      reads `buckets, `numBuckets, `log2NumBuckets, `chains, `items, buckets, items`hhNext, items`hhPrev
    {
      Sized() && BucketsHold(buckets[..], chains, items)
    }

    /** The links and counts on the heap are those of `items` and `chains`. */
    ghost predicate Sound()
      reads this, buckets, items
    {
      if head == null then items == []
      else Ordered() && Hashed() && Bucketed() && numItems == |items|
    }

    ghost predicate Valid()
      reads this, buckets, items
    {
      Sound() && UthashSpec.Valid(Abs(), hash)
    }

    constructor (hash: HashFunction)
      ensures Valid() && Abs() == Absent && this.hash == hash
    {
      this.hash := hash;
      head, tail, items, chains := null, null, [], [];
      buckets := new Bucket[0];
      numBuckets, log2NumBuckets, numItems := 0, 0, 0;
      idealChainMaxlen, nonidealItems, ineffExpands, noexpand := 0, 0, 0, false;
    }

    method BucketIndex(hashv: nat) returns (j: nat)
      requires numBuckets == Pow2(log2NumBuckets)
      ensures j == hashv % numBuckets
    {
      MaskIsRemainder(hashv, log2NumBuckets);
      j := And(hashv, numBuckets - 1);
    }

    method MakeTable(first: Item)
      modifies this
      ensures Sized() && fresh(buckets)
      ensures head == old(head) && tail == first && numItems == 0
      ensures items == old(items) && chains == NewTable().chains
      ensures Table0() == WithItems(NewTable(), items)
      ensures numBuckets == 32 && log2NumBuckets == 5
      ensures forall j | 0 <= j < numBuckets :: buckets[j] == Bucket(null, 0, 0)
    {
      tail := first;
      numBuckets, log2NumBuckets, numItems := INITIAL_NUM_BUCKETS, INITIAL_NUM_BUCKETS_LOG2, 0;
      idealChainMaxlen, nonidealItems, ineffExpands, noexpand := 0, 0, 0, false;
      buckets := new Bucket[INITIAL_NUM_BUCKETS](_ => Bucket(null, 0, 0));
      chains := NewTable().chains;
      assert MultsOf(buckets[..]) == NewTable().mults;
      assert Pow2(5) == 32;
    }

    method FindKey(key: Key) returns (out: Item?)
      requires Valid()
      ensures out == Find(Abs(), hash, key)
      ensures out == Lookup(items, key)
      ensures out != null ==> out in items && out.key == key
      ensures out == null ==> forall i | 0 <= i < |items| :: items[i].key != key
    {
      out := null;
      FindIsLookup(Abs(), hash, key);
      if head != null {
        var hashv := hash(key);
        var j := BucketIndex(hashv);
        out := FindInBucket(buckets[j], key, hashv, chains[j]);
      }
    }

    method FindInBucket(b: Bucket, key: Key, hashv: nat, ghost c: seq<Item>) returns (out: Item?)
      requires BucketHolds(b, c) && hashv == hash(key)
      requires forall i | 0 <= i < |c| :: c[i].hashv == hash(c[i].key)
      ensures out == Lookup(c, key)
    {
      out := b.hhHead;
      ghost var i := 0;
      while out != null
        invariant 0 <= i <= |c| && out == At(c, i)
        invariant Lookup(c, key) == Lookup(c[i..], key)
        decreases |c| - i
      {
        if out.hashv == hashv && |out.key| == |key| {
          if out.key == key {
            break;
          }
        }
        assert c[i..][1..] == c[i + 1..];
        out := out.hhNext;
        i := i + 1;
      }
    }

    method AppendList(x: Item)
      requires Ordered() && Hashed() && Bucketed() && x !in items && x.hashv == hash(x.key)
      modifies `tail, `items, x`next, x`prev, items`next
      ensures Ordered() && Hashed() && Bucketed() && items == old(items) + [x]
    {
      AppendAfter(x, tail, items);
      tail := x;
      items := items + [x];
    }

    /** The table starts, or restarts, with this one item, not yet in a bucket. */
    method StartWith(x: Item)
      requires x.hashv == hash(x.key)
      modifies this, x`next, x`prev
      ensures Ordered() && Hashed() && Bucketed() && numItems == 0
      ensures Table0() == WithItems(NewTable(), [x]) && fresh(buckets)
    {
      x.next := null;
      x.prev := null;
      MakeTable(x);
      head := x;
      items := [x];
    }

    /** Record the hash value and append x to the application order, starting the table if there is none. */
    method Enter(x: Item)
      requires Sound() && x !in items
      modifies this, x, items`next
      ensures Ordered() && Hashed() && Bucketed() && numItems == |old(items)|
      ensures Table0() == WithItems(Started(old(Abs())), old(items) + [x])
      ensures buckets == old(buckets) || fresh(buckets)
    {
      SetHash(x);
      if head == null {
        StartWith(x);
      } else {
        AppendList(x);
      }
    }

    method SetHash(x: Item)
      requires Sound() && x !in items
      modifies x`hashv
      ensures x.hashv == hash(x.key) && Sound()
    {
      x.hashv := hash(x.key);
    }

    method AddItem(x: Item)
      requires Valid() && Fresh(Abs(), x.key)
      modifies this, buckets, items, x
      ensures Valid() && Abs() == Add(old(Abs()), hash, x)
      ensures buckets == old(buckets) || fresh(buckets)
      ensures old(head) == null ==> numBuckets == 32
      ensures old(head) != null ==> numBuckets == if old(OneShort(x)) then 2 * old(numBuckets) else old(numBuckets)
    {
      AddValid(Abs(), hash, x);
      AddReady(Abs(), hash, x, items + [x]);
      AddDoublesExactly(Abs(), hash, x);
      StartsEmpty();
      if head != null {
        OneMoreFills(x);
      }
      AddHandle(x);
    }

    method AddHandle(x: Item)
      requires Sound() && x !in items
      requires Placed(hash, items + [x], Started(Abs()).chains) && ChainsNoDup(Started(Abs()).chains)
      requires x !in Started(Abs()).chains[Slot(hash, x, |Started(Abs()).chains|)]
      modifies this, buckets, items, x
      ensures Sound() && head != null
      ensures Table0() == Add(old(Abs()), hash, x)
      ensures buckets == old(buckets) || fresh(buckets)
    {
      Enter(x);
      Join(x);
    }

    /** The item stands in the application order; put it in its bucket as well. */
    method Join(x: Item)
      requires Ordered() && Hashed() && Bucketed() && x in items && numItems == |items| - 1
      requires Placed(hash, items, chains) && ChainsNoDup(chains)
      requires x !in chains[Slot(hash, x, numBuckets)]
      modifies this, buckets, items`hhNext, items`hhPrev
      ensures Sound() && head != null
      ensures Table0() == AddToBucket(old(Table0()), hash, x)
      ensures buckets == old(buckets) || fresh(buckets)
    {
      AddToTable(x);
    }

    /** Expansion is not inhibited, and with x its bucket holds ten times one more than its multiplier. */
    predicate OneShort(x: Item)
      requires buckets.Length == numBuckets > 0
      reads this, buckets
    {
      var b := buckets[hash(x.key) % numBuckets];
      !noexpand && b.count + 1 >= 10 * (b.expandMult + 1)
    }

    lemma OneMoreFills(x: Item)
      requires Bucketed() && numBuckets > 0
      ensures var j := hash(x.key) % numBuckets;
              OneShort(x) <==> !noexpand && |chains[j]| + 1 >= 10 * (Table0().mults[j] + 1)
    {
      var j := hash(x.key) % numBuckets;
      assert BucketHolds(buckets[..][j], chains[j]);
    }

    /** Count the item and put it in its bucket. */
    method AddToTable(x: Item)
      requires Hashed() && Bucketed() && x in items && numItems == |items| - 1
      requires Placed(hash, items, chains) && ChainsNoDup(chains)
      requires x !in chains[Slot(hash, x, numBuckets)]
      modifies this, buckets, items`hhNext, items`hhPrev
      ensures head == old(head) && tail == old(tail) && items == old(items)
      ensures Bucketed() && numItems == |items|
      ensures Table0() == AddToBucket(old(Table0()), hash, x)
      ensures buckets == old(buckets) || fresh(buckets)
      ensures numBuckets == if old(OneShort(x)) then 2 * old(numBuckets) else old(numBuckets)
    {
      OneMoreFills(x);
      numItems := numItems + 1;
      var j := PushItem(x);
      ExpandIfNeeded(j);
    }

    method PushItem(x: Item) returns (j: nat)
      requires Hashed() && Bucketed() && x in items
      requires Placed(hash, items, chains) && ChainsNoDup(chains)
      requires x !in chains[Slot(hash, x, numBuckets)]
      modifies `chains, buckets, items`hhNext, items`hhPrev
      ensures j == Slot(hash, x, numBuckets)
      ensures Bucketed() && Table0() == Pushed(old(Table0()), hash, x)
      ensures Placed(hash, items, chains) && ChainsNoDup(chains)
    {
      j := BucketIndex(x.hashv);
      PushedPlaced(Table0(), hash, x);
      PushInto(x, j);
    }

    /** Expand when the chain has reached its threshold and expansion is not inhibited. */
    method ExpandIfNeeded(j: nat)
      requires Hashed() && Bucketed() && numItems == |items| > 0 && j < numBuckets
      requires Placed(hash, items, chains) && ChainsNoDup(chains)
      modifies this, items`hhNext, items`hhPrev
      ensures head == old(head) && tail == old(tail) && items == old(items) && numItems == old(numItems)
      ensures Bucketed()
      ensures Table0() == if MustExpand(old(Table0()), j) then Expand(old(Table0()), hash) else old(Table0())
      ensures buckets == old(buckets) || fresh(buckets)
      ensures old(!noexpand && buckets[j].count >= 10 * (buckets[j].expandMult + 1)) ==>
                numBuckets == 2 * old(numBuckets) && MultsFit(buckets[..], idealChainMaxlen)
      ensures old(noexpand || buckets[j].count < 10 * (buckets[j].expandMult + 1)) ==>
                numBuckets == old(numBuckets) && buckets == old(buckets)
    {
      assert BucketHolds(buckets[..][j], chains[j]) && Table0().mults[j] == buckets[j].expandMult;
      if buckets[j].count >= (buckets[j].expandMult + 1) * BKT_CAPACITY_THRESH && !noexpand {
        ExpandBuckets();
      }
    }

    method PushInto(x: Item, j: nat)
      requires Bucketed() && x in items && j < numBuckets
      requires Placed(hash, items, chains) && NoDup(chains[j]) && x !in chains[j] && Slot(hash, x, numBuckets) == j
      modifies `chains, buckets, x`hhNext, x`hhPrev, chains[j]`hhPrev
      ensures Bucketed() && Table0() == Pushed(old(Table0()), hash, x)
    {
      var b := buckets[j];
      PushBucket(buckets, x, j, b.expandMult, hash, items, chains);
      chains := chains[j := [x] + chains[j]];
      assert MultsOf(buckets[..]) == old(MultsOf(buckets[..]));
    }

    /** Double the number of buckets and move every item into the bucket its hash selects. */
    method ExpandBuckets()
      requires Hashed() && Bucketed() && numItems == |items| > 0
      requires Placed(hash, items, chains) && ChainsNoDup(chains)
      modifies this, items`hhNext, items`hhPrev
      ensures head == old(head) && tail == old(tail) && items == old(items) && numItems == old(numItems)
      ensures Bucketed()
      ensures Table0() == Expand(old(Table0()), hash)
      ensures fresh(buckets) && numBuckets == 2 * old(numBuckets)
      ensures IsLeast(idealChainMaxlen, numItems, numBuckets)
      ensures MultsFit(buckets[..], idealChainMaxlen)
    {
      ghost var m := Table0();
      BucketedUnmoved();
      var newBuckets := Rehash();
      Install(newBuckets, ExpandedChains(hash, chains));
      ExpandFields(m, hash, Table0());
    }

    lemma BucketedUnmoved()
      requires Hashed() && Bucketed()
      ensures Unmoved()
    {
      assert forall j | 0 <= j < numBuckets :: BucketHolds(buckets[..][j], chains[j]);
    }

    /** Allocate twice as many buckets and move every item into them. */
    method Rehash() returns (newBuckets: array<Bucket>)
      requires Unmoved() && numItems == |items| > 0
      requires Placed(hash, items, chains) && ChainsNoDup(chains)
      modifies `idealChainMaxlen, `nonidealItems, items`hhNext, items`hhPrev
      ensures fresh(newBuckets)
      ensures idealChainMaxlen == CeilDiv(numItems, 2 * numBuckets) > 0
      ensures IsLeast(idealChainMaxlen, numItems, 2 * numBuckets)
      ensures BucketsHold(newBuckets[..], ExpandedChains(hash, chains), items)
      ensures MultsOf(newBuckets[..]) == Mults(ExpandedChains(hash, chains), idealChainMaxlen)
      ensures MultsFit(newBuckets[..], idealChainMaxlen)
      ensures nonidealItems == Sum(Excesses(ExpandedChains(hash, chains), idealChainMaxlen))
    {
      newBuckets := new Bucket[2 * numBuckets](_ => Bucket(null, 0, 0));
      SetIdeal();
      MoveAll(newBuckets);
      PartialEnd(hash, chains);
      FittedMults(newBuckets[..], ExpandedChains(hash, chains), items, idealChainMaxlen);
    }

    /** The ideal chain length for the doubled table, by shift and mask. */
    method SetIdeal()
      requires numBuckets == Pow2(log2NumBuckets) && numItems > 0
      modifies `idealChainMaxlen
      ensures idealChainMaxlen == CeilDiv(numItems, 2 * numBuckets) > 0
      ensures IsLeast(idealChainMaxlen, numItems, 2 * numBuckets)
    {
      CeilByShiftAndMask(numItems, log2NumBuckets + 1);
      idealChainMaxlen := ShiftRight(numItems, log2NumBuckets + 1)
                          + (if And(numItems, 2 * numBuckets - 1) != 0 then 1 else 0);
      IdealIsLeast(numItems, 2 * numBuckets, idealChainMaxlen);
    }

    /** The old buckets, before anything has moved. */
    ghost predicate Unmoved()
      reads `buckets, `numBuckets, `log2NumBuckets, `chains, `items, buckets, items`hhNext, items`hashv
    {
      && Sized() && numBuckets > 0
      && (forall j, i | 0 <= j < |chains| && 0 <= i < |chains[j]| :: chains[j][i] in items)
      && (forall j | 0 <= j < numBuckets :: buckets[j].hhHead == At(chains[j], 0) && NextLinked(chains[j], 0))
      && Hashed()
    }

    /** Replace the old bucket array and judge whether the doubling was worth it. */
    method Install(newBuckets: array<Bucket>, ghost newChains: seq<seq<Item>>)
      requires Sized() && |newChains| == 2 * numBuckets
      requires BucketsHold(newBuckets[..], newChains, items)
      modifies this
      ensures head == old(head) && tail == old(tail) && items == old(items) && numItems == old(numItems)
      ensures idealChainMaxlen == old(idealChainMaxlen) && nonidealItems == old(nonidealItems)
      ensures Bucketed() && buckets == newBuckets && chains == newChains
      ensures log2NumBuckets == old(log2NumBuckets) + 1
      ensures ineffExpands == if nonidealItems > numItems / 2 then old(ineffExpands) + 1 else 0
      ensures noexpand == (old(noexpand) || ineffExpands > 1)
    {
      numBuckets := 2 * numBuckets;
      log2NumBuckets := log2NumBuckets + 1;
      buckets := newBuckets;
      chains := newChains;
      ShiftIsQuotient(numItems, 1);
      ineffExpands := if nonidealItems > ShiftRight(numItems, 1) then ineffExpands + 1 else 0;
      if ineffExpands > 1 {
        noexpand := true;
      }
    }

    method MoveAll(newBuckets: array<Bucket>)
      requires Unmoved() && newBuckets != buckets && newBuckets.Length == 2 * numBuckets
      requires Placed(hash, items, chains) && ChainsNoDup(chains) && idealChainMaxlen > 0
      requires forall j | 0 <= j < newBuckets.Length :: newBuckets[j] == Bucket(null, 0, 0)
      modifies newBuckets, `nonidealItems, items`hhNext, items`hhPrev
      ensures Moving(newBuckets[..], numBuckets, 0)
    {
      nonidealItems := 0;
      NothingMoved(newBuckets[..]);
      var i := 0;
      while i < numBuckets
        invariant 0 <= i <= numBuckets
        invariant Moving(newBuckets[..], i, 0)
        invariant forall j | i <= j < numBuckets :: NextLinked(chains[j], 0)
      {
        MoveBucket(newBuckets, i);
        i := i + 1;
      }
    }

    /** Old bucket i, while the later ones still have their links. */
    method MoveBucket(newBuckets: array<Bucket>, i: nat)
      requires Sized() && numBuckets > 0 && Hashed() && i < numBuckets
      requires newBuckets != buckets && newBuckets.Length == 2 * numBuckets
      requires Placed(hash, items, chains) && ChainsNoDup(chains) && idealChainMaxlen > 0
      requires buckets[i].hhHead == At(chains[i], 0) && Moving(newBuckets[..], i, 0)
      requires forall j | i <= j < numBuckets :: NextLinked(chains[j], 0)
      modifies newBuckets, `nonidealItems, items`hhNext, items`hhPrev
      ensures Moving(newBuckets[..], i + 1, 0)
      ensures forall j | i < j < numBuckets :: NextLinked(chains[j], 0)
    {
      ChainsApart(hash, items, chains, i);
      assert NextLinked(chains[i], 0);
      MoveChain(newBuckets, i);
    }

    lemma NothingMoved(bs: seq<Bucket>)
      requires |chains| > 0 && |bs| == 2 * |chains| && idealChainMaxlen > 0 && nonidealItems == 0
      requires forall j | 0 <= j < |bs| :: bs[j] == Bucket(null, 0, 0)
      ensures Moving(bs, 0, 0)
    {
      PartialStart(hash, chains, idealChainMaxlen);
    }

    ghost predicate Moving(bs: seq<Bucket>, i: nat, k: nat)
      requires i <= |chains| && (i < |chains| ==> k <= |chains[i]|) && idealChainMaxlen > 0
      reads `chains, `items, `nonidealItems, `idealChainMaxlen, items`hhNext, items`hhPrev
    {
      var p := Partial(hash, chains, i, k);
      && BucketsHold(bs, p, items)
      && MultsOf(bs) == Mults(p, idealChainMaxlen)
      && nonidealItems == Sum(Excesses(p, idealChainMaxlen))
    }

    /** Walk old bucket i, moving each item to the front of its new bucket. */
    method MoveChain(newBuckets: array<Bucket>, i: nat)
      requires |chains| > 0 && Placed(hash, items, chains) && ChainsNoDup(chains) && idealChainMaxlen > 0
      requires i < |chains| == buckets.Length && buckets != newBuckets
      requires forall m | 0 <= m < |chains[i]| :: chains[i][m].hashv == hash(chains[i][m].key)
      requires buckets[i].hhHead == At(chains[i], 0) && NextLinked(chains[i], 0)
      requires newBuckets.Length == 2 * |chains| && |chains| == Pow2(log2NumBuckets) == numBuckets
      requires Moving(newBuckets[..], i, 0)
      modifies newBuckets, `nonidealItems, chains[i]`hhNext, items`hhPrev
      ensures Moving(newBuckets[..], i + 1, 0)
    {
      var thh := buckets[i].hhHead;
      ghost var k := 0;
      while thh != null
        invariant 0 <= k <= |chains[i]| && thh == At(chains[i], k)
        invariant NextLinked(chains[i], k)
        invariant Moving(newBuckets[..], i, k)
        decreases |chains[i]| - k
      {
        thh := MoveNext(newBuckets, thh, i, k);
        k := k + 1;
      }
      ChainMoved(newBuckets[..], i, k);
    }

    lemma ChainMoved(bs: seq<Bucket>, i: nat, k: nat)
      requires i < |chains| && k == |chains[i]| && idealChainMaxlen > 0 && Moving(bs, i, k)
      ensures Moving(bs, i + 1, 0)
    {
      PartialNext(hash, chains, i);
    }

    /** Move x, having read where the walk of the old chain goes on. */
    method MoveNext(newBuckets: array<Bucket>, x: Item, i: nat, ghost k: nat) returns (next: Item?)
      requires |chains| > 0 && Placed(hash, items, chains) && ChainsNoDup(chains) && idealChainMaxlen > 0
      requires i < |chains| && k < |chains[i]| && x == chains[i][k] && x.hashv == hash(x.key)
      requires newBuckets.Length == 2 * |chains| && |chains| == Pow2(log2NumBuckets) == numBuckets
      requires NextLinked(chains[i], k) && Moving(newBuckets[..], i, k)
      modifies newBuckets, `nonidealItems, x`hhNext, items`hhPrev
      ensures next == At(chains[i], k + 1)
      ensures NextLinked(chains[i], k + 1) && Moving(newBuckets[..], i, k + 1)
    {
      next := x.hhNext;
      assert next == At(chains[i], k + 1);
      assert forall j | k < j < |chains[i]| :: chains[i][j] != x;
      MoveItem(newBuckets, x, i, k);
    }

    method MoveItem(newBuckets: array<Bucket>, x: Item, i: nat, ghost k: nat)
      requires |chains| > 0 && Placed(hash, items, chains) && ChainsNoDup(chains) && idealChainMaxlen > 0
      requires i < |chains| && k < |chains[i]| && x == chains[i][k] && x.hashv == hash(x.key)
      requires newBuckets.Length == 2 * |chains| && |chains| == Pow2(log2NumBuckets) == numBuckets
      requires Moving(newBuckets[..], i, k)
      modifies newBuckets, `nonidealItems, x`hhNext, items`hhPrev
      ensures Moving(newBuckets[..], i, k + 1) && MultsFit(newBuckets[..], idealChainMaxlen)
    {
      ghost var p, c := Partial(hash, chains, i, k), Partial(hash, chains, i, k + 1);
      var b := NewIndex(x.hashv);
      MoveReady(newBuckets[..], x, i, k, b);
      PushMoved(newBuckets, x, b, p, c);
      MoveDone(newBuckets[..], i, k, c);
      FittedMults(newBuckets[..], c, items, idealChainMaxlen);
    }

    lemma MoveDone(bs: seq<Bucket>, i: nat, k: nat, c: seq<seq<Item>>)
      requires i < |chains| && k < |chains[i]| && idealChainMaxlen > 0
      requires c == Partial(hash, chains, i, k + 1) && Counted(bs, c)
      ensures Moving(bs, i, k + 1)
    {
    }

    /** The new buckets hold these chains, and the misplaced items among them have been counted. */
    ghost predicate Counted(bs: seq<Bucket>, c: seq<seq<Item>>)
      reads `items, `nonidealItems, `idealChainMaxlen, items`hhNext, items`hhPrev
    {
      && idealChainMaxlen > 0 && BucketsHold(bs, c, items)
      && MultsOf(bs) == Mults(c, idealChainMaxlen) && nonidealItems == Sum(Excesses(c, idealChainMaxlen))
    }

    /** Pushing x makes the chains c of the chains p. */
    ghost predicate CanMove(bs: seq<Bucket>, x: Item, b: nat, p: seq<seq<Item>>, c: seq<seq<Item>>)
      reads `items, `nonidealItems, `idealChainMaxlen, items`hhNext, items`hhPrev
    {
      && CanPush(bs, x, b, p) && c == p[b := [x] + p[b]]
      && Sum(Excesses(c, idealChainMaxlen)) == nonidealItems + (if |p[b]| + 1 > idealChainMaxlen then 1 else 0)
      && Mults(c, idealChainMaxlen) == MultsOf(bs)[b := MultFor(|p[b]| + 1, idealChainMaxlen)]
    }

    method PushMoved(newBuckets: array<Bucket>, x: Item, b: nat, ghost p: seq<seq<Item>>, ghost c: seq<seq<Item>>)
      requires CanMove(newBuckets[..], x, b, p, c)
      modifies newBuckets, `nonidealItems, x`hhNext, items`hhPrev
      ensures Counted(newBuckets[..], c)
    {
      PushCounted(newBuckets, x, b, p);
    }

    /** x belongs in new bucket b, and is not there yet. */
    ghost predicate CanPush(bs: seq<Bucket>, x: Item, b: nat, p: seq<seq<Item>>)
      reads `items, `idealChainMaxlen, items`hhNext, items`hhPrev
    {
      && idealChainMaxlen > 0 && b < |bs| == |p| && x in items
      && BucketsHold(bs, p, items) && Placed(hash, items, p) && NoDup(p[b]) && x !in p[b]
      && Slot(hash, x, |p|) == b && bs[b].count == |p[b]| && bs[b].expandMult == MultFor(|p[b]|, idealChainMaxlen)
    }

    method PushCounted(newBuckets: array<Bucket>, x: Item, b: nat, ghost p: seq<seq<Item>>)
      requires CanPush(newBuckets[..], x, b, p)
      modifies newBuckets, `nonidealItems, x`hhNext, items`hhPrev
      ensures BucketsHold(newBuckets[..], p[b := [x] + p[b]], items)
      ensures MultsOf(newBuckets[..]) == old(MultsOf(newBuckets[..]))[b := MultFor(|p[b]| + 1, idealChainMaxlen)]
      ensures nonidealItems == old(nonidealItems) + if |p[b]| + 1 > idealChainMaxlen then 1 else 0
    {
      var mult := CountItem(newBuckets[b]);
      PushBucket(newBuckets, x, b, mult, hash, items, p);
      NewMults(old(newBuckets[..]), newBuckets[..], b);
    }

    /** What the next move starts from, and what it must come to. */
    lemma MoveReady(bs: seq<Bucket>, x: Item, i: nat, k: nat, b: nat)
      requires |chains| > 0 && Placed(hash, items, chains) && ChainsNoDup(chains) && idealChainMaxlen > 0
      requires i < |chains| && k < |chains[i]| && x == chains[i][k] && b == Slot(hash, x, 2 * |chains|)
      requires |bs| == 2 * |chains| && Moving(bs, i, k)
      ensures CanMove(bs, x, b, Partial(hash, chains, i, k), Partial(hash, chains, i, k + 1))
    {
      var p := Partial(hash, chains, i, k);
      PartialStep(hash, items, chains, i, k);
      PartialPlaced(hash, items, chains, i, k);
      CountsStep(p, b, x, idealChainMaxlen);
      assert BucketHolds(bs[b], p[b]) && bs[b].expandMult == Mults(p, idealChainMaxlen)[b];
    }

    method NewIndex(hashv: nat) returns (b: nat)
      requires numBuckets == Pow2(log2NumBuckets)
      ensures b == hashv % (2 * numBuckets)
    {
      MaskIsRemainder(hashv, log2NumBuckets + 1);
      b := And(hashv, numBuckets * 2 - 1);
    }

    /** One more item for this new bucket: count it as misplaced, and set the multiplier, if it is beyond the ideal. */
    method CountItem(b: Bucket) returns (mult: nat)
      requires idealChainMaxlen > 0 && b.expandMult == MultFor(b.count, idealChainMaxlen)
      modifies `nonidealItems
      ensures mult == MultFor(b.count + 1, idealChainMaxlen)
      ensures b.count + 1 > idealChainMaxlen ==>
                mult * idealChainMaxlen <= b.count + 1 < (mult + 1) * idealChainMaxlen
      ensures b.count + 1 <= idealChainMaxlen ==> mult == 0
      ensures nonidealItems == old(nonidealItems) + if b.count + 1 > idealChainMaxlen then 1 else 0
    {
      mult := b.expandMult;
      if b.count + 1 > idealChainMaxlen {
        nonidealItems := nonidealItems + 1;
        mult := (b.count + 1) / idealChainMaxlen;
        MultiplierFits(b.count + 1, idealChainMaxlen);
      }
    }

    // ---- ordered insertion --------------------------------------------------------------------------------

    method AddItemInOrder(x: Item, cmp: Comparator)
      requires Valid() && Fresh(Abs(), x.key)
      modifies this, buckets, items, x
      ensures Valid() && Abs() == AddInOrder(old(Abs()), hash, cmp, x)
      ensures buckets == old(buckets) || fresh(buckets)
      ensures old(head) == null ==> numBuckets == 32
      ensures old(head) != null ==> numBuckets == if old(OneShort(x)) then 2 * old(numBuckets) else old(numBuckets)
    {
      AddInOrderValid(Abs(), hash, cmp, x);
      AddInOrderDoublesExactly(Abs(), hash, cmp, x);
      StartsEmpty();
      if head != null {
        OneMoreFills(x);
      }
      InsertJoins(cmp, items, x);
      AddReady(Abs(), hash, x, InsertInOrder(cmp, items, x));
      AddHandleInOrder(x, cmp, InsertInOrder(cmp, items, x));
    }

    method AddHandleInOrder(x: Item, cmp: Comparator, ghost s: seq<Item>)
      requires Sound() && x !in items && s == InsertInOrder(cmp, items, x)
      requires Placed(hash, s, Started(Abs()).chains) && ChainsNoDup(Started(Abs()).chains)
      requires x !in Started(Abs()).chains[Slot(hash, x, |Started(Abs()).chains|)]
      modifies this, buckets, items, x
      ensures Sound() && head != null
      ensures Table0() == AddToBucket(WithItems(Started(old(Abs())), s), hash, x)
      ensures buckets == old(buckets) || fresh(buckets)
    {
      EnterInOrder(x, cmp, s);
      Join(x);
    }

    method EnterInOrder(x: Item, cmp: Comparator, ghost s: seq<Item>)
      requires Sound() && x !in items && s == InsertInOrder(cmp, items, x)
      modifies this, x, items`next, items`prev
      ensures Ordered() && Hashed() && Bucketed() && numItems == |old(items)| == |items| - 1 && x in items
      ensures items == s && chains == Started(old(Abs())).chains && Table0() == WithItems(Started(old(Abs())), s)
      ensures buckets == old(buckets) || fresh(buckets)
      ensures forall i | 0 <= i < |items| :: items[i] in old(items) || items[i] == x
    {
      InsertMembers(cmp, items, x);
      SetHash(x);
      if head == null {
        StartWith(x);
      } else {
        InsertInto(x, cmp, s);
      }
    }

    method InsertInto(x: Item, cmp: Comparator, ghost s: seq<Item>)
      requires Sound() && head != null && x !in items && x.hashv == hash(x.key) && s == InsertInOrder(cmp, items, x)
      modifies `head, `tail, `items, x`next, x`prev, items`next, items`prev
      ensures Ordered() && Hashed() && Bucketed() && items == s && Table0() == WithItems(old(Table0()), s)
    {
      InsertSorted(x, cmp);
    }

    method InsertSorted(x: Item, cmp: Comparator)
      requires Ordered() && Hashed() && Bucketed() && x !in items && x.hashv == hash(x.key)
      modifies `head, `tail, `items, x`next, x`prev, items`next, items`prev
      ensures Ordered() && Hashed() && Bucketed() && items == InsertInOrder(cmp, old(items), x)
    {
      var iter := FirstAfter(x, cmp);
      LinkBefore(x, iter, Ahead(cmp, items, x));
      Splice(x, Ahead(cmp, items, x));
    }

    method LinkBefore(x: Item, iter: Item?, ghost k: nat)
      requires Ordered() && x !in items && k <= |items| && iter == At(items, k)
      modifies `head, `tail, x`next, x`prev, items`next, items`prev
      ensures AppLinked(items[..k] + [x] + items[k..])
      ensures head == (items[..k] + [x] + items[k..])[0] && tail == (items[..k] + [x] + items[k..])[|items|]
    {
      if iter != null {
        InsertBefore(x, iter, items, k);
        if x.prev == null {
          head := x;
        }
      } else {
        AppendAfter(x, tail, items);
        tail := x;
        assert items[..k] + [x] + items[k..] == items + [x];
      }
    }

    /** Record in the ghost sequence that x now stands at position k. */
    ghost method Splice(x: Item, k: nat)
      requires k <= |items| && x !in items && NoDup(items) && items != []
      requires AppLinked(items[..k] + [x] + items[k..])
      requires head == (items[..k] + [x] + items[k..])[0] && tail == (items[..k] + [x] + items[k..])[|items|]
      requires Hashed() && Bucketed() && x.hashv == hash(x.key)
      modifies `items
      ensures Ordered() && Hashed() && Bucketed() && items == old(items)[..k] + [x] + old(items)[k..]
    {
      ghost var s := items;
      items := s[..k] + [x] + s[k..];
      assert forall i | 0 <= i < |s| :: s[i] == items[if i < k then i else i + 1];
    }

    /** The first item that must come after x, if there is one. */
    method FirstAfter(x: Item, cmp: Comparator) returns (iter: Item?)
      requires Ordered()
      ensures iter == At(items, Ahead(cmp, items, x))
    {
      iter := head;
      ghost var k := 0;
      while iter != null
        invariant 0 <= k <= |items| && iter == At(items, k)
        invariant Ahead(cmp, items, x) == k + Ahead(cmp, items[k..], x)
        decreases |items| - k
      {
        assert items[k..][1..] == items[k + 1..];
        if cmp(iter, x) > 0 {
          break;
        }
        iter := iter.next;
        k := k + 1;
      }
    }

    // ---- deletion and replacement -------------------------------------------------------------------------

    method DeleteItem(x: Item)
      requires Valid() && x in items
      modifies this, buckets, items
      ensures Valid() && Abs() == Delete(old(Abs()), hash, x)
      ensures buckets == old(buckets)
    {
      DeleteValid(Abs(), hash, x);
      OnlyItem(x);
      if x.prev == null && x.next == null {
        head := null;
        items, chains := [], [];
      } else {
        DeleteHandle(x);
      }
    }

    lemma OnlyItem(x: Item)
      requires head != null && Sound() && x in items
      ensures x.prev == null && x.next == null <==> |items| == 1
    {
      var i :| 0 <= i < |items| && items[i] == x;
      assert x.prev == At(items, i - 1) && x.next == At(items, i + 1);
    }

    method DeleteHandle(x: Item)
      requires head != null && Ordered() && Hashed() && Bucketed() && numItems == |items|
      requires x in items && |items| > 1
      requires Placed(hash, items, chains) && ChainsNoDup(chains) && x in chains[Slot(hash, x, numBuckets)]
      requires Placed(hash, Without(items, x), Delete(Table0(), hash, x).chains)
      modifies this, buckets, items
      ensures head != null && Ordered() && Hashed() && Bucketed() && numItems == |items|
      ensures Table0() == Delete(old(Table0()), hash, x)
      ensures buckets == old(buckets)
    {
      TakeOut(x, Delete(Table0(), hash, x));
    }

    method TakeOut(x: Item, ghost r: Model)
      requires Ordered() && Hashed() && Bucketed() && numItems == |items| > 1 && x in items && numBuckets > 0
      requires Placed(hash, items, chains) && ChainsNoDup(chains) && x in chains[Slot(hash, x, numBuckets)]
      requires r == Delete(Table0(), hash, x) && Placed(hash, Without(items, x), r.chains)
      modifies `head, `tail, `chains, `items, `numItems, buckets, items`next, items`prev, items`hhNext, items`hhPrev
      ensures Ordered() && Hashed() && Bucketed() && numItems == |items| && Table0() == r
    {
      ghost var m := Table0();
      Unlink(x, r.chains);
      DeleteFields(m, hash, x, Table0());
    }

    method Unlink(x: Item, ghost c: seq<seq<Item>>)
      requires Ordered() && Hashed() && Bucketed() && numItems == |items| > 1 && x in items && numBuckets > 0
      requires Placed(hash, items, chains) && ChainsNoDup(chains) && x in chains[Slot(hash, x, numBuckets)]
      requires var j := Slot(hash, x, numBuckets); c == chains[j := Without(chains[j], x)]
      requires Placed(hash, Without(items, x), c)
      modifies `head, `tail, `chains, `items, `numItems, buckets, items`next, items`prev, items`hhNext, items`hhPrev
      ensures Ordered() && Hashed() && Bucketed() && numItems == |items|
      ensures items == Without(old(items), x) && chains == c && MultsOf(buckets[..]) == old(MultsOf(buckets[..]))
    {
      Detach(x, Without(items, x));
      Forget(x);
    }

    method Detach(x: Item, ghost r: seq<Item>)
      requires Ordered() && Hashed() && Bucketed() && x in items && |items| > 1 && numBuckets > 0
      requires Placed(hash, items, chains) && x in chains[Slot(hash, x, numBuckets)] && r == Without(items, x)
      requires NoDup(chains[Slot(hash, x, numBuckets)]) && numItems > 0
      modifies `head, `tail, `chains, `numItems, buckets, items`next, items`prev, items`hhNext, items`hhPrev
      ensures numItems == old(numItems) - 1
      ensures AppLinked(r) && head == r[0] && tail == r[|r| - 1]
      ensures Bucketed() && MultsOf(buckets[..]) == old(MultsOf(buckets[..]))
      ensures var j := Slot(hash, x, numBuckets);
              chains == old(chains)[j := Without(old(chains)[j], x)]
    {
      LeaveOrder(x, r);
      LeaveBucket(x);
    }

    /** Record in the ghost sequence that x is gone. */
    ghost method Forget(x: Item)
      requires x in items && |items| > 1 && NoDup(items) && AppLinked(Without(items, x))
      requires head == Without(items, x)[0] && tail == Without(items, x)[|items| - 2]
      requires Hashed() && Bucketed()
      requires forall j, i | 0 <= j < |chains| && 0 <= i < |chains[j]| :: chains[j][i] in Without(items, x)
      modifies `items
      ensures Ordered() && Hashed() && Bucketed() && items == Without(old(items), x)
    {
      WithoutMembers(items, x);
      items := Without(items, x);
    }

    method LeaveOrder(x: Item, ghost r: seq<Item>)
      requires Ordered() && x in items && |items| > 1 && r == Without(items, x)
      modifies `head, `tail, items`next, items`prev
      ensures AppLinked(r) && head == r[0] && tail == r[|r| - 1]
    {
      ghost var k: int := IndexOf(items, x);
      WithoutEnds(items, x);
      assert x.prev == At(items, k - 1) && x.next == At(items, k + 1);
      if x == tail {
        tail := x.prev;
      }
      if x.prev == null {
        head := x.next;
      }
      UnlinkFromApp(x, items, k);
    }

    method LeaveBucket(x: Item)
      requires Bucketed() && Hashed() && x in items
      requires numBuckets > 0 && Placed(hash, items, chains) && x in chains[Slot(hash, x, numBuckets)]
      requires NoDup(chains[Slot(hash, x, numBuckets)]) && numItems > 0
      modifies `chains, `numItems, buckets, items`hhNext, items`hhPrev
      ensures numItems == old(numItems) - 1
      ensures Bucketed() && MultsOf(buckets[..]) == old(MultsOf(buckets[..]))
      ensures var j := Slot(hash, x, numBuckets);
              chains == old(chains)[j := Without(old(chains)[j], x)]
    {
      var j := BucketIndex(x.hashv);
      PopFrom(x, j);
      numItems := numItems - 1;
    }

    method PopFrom(x: Item, j: nat)
      requires Bucketed() && x in items && j < numBuckets
      requires Placed(hash, items, chains) && NoDup(chains[j]) && x in chains[j]
      modifies `chains, buckets, items`hhNext, items`hhPrev
      ensures Bucketed() && MultsOf(buckets[..]) == old(MultsOf(buckets[..]))
      ensures chains == old(chains)[j := Without(old(chains)[j], x)]
    {
      PopBucket(buckets, x, j, hash, items, chains);
      chains := chains[j := Without(chains[j], x)];
    }

    /** Delete the item with this key, if there is one. */
    method RemoveKey(k: Key) returns (removed: Item?)
      requires Valid()
      modifies this, buckets, items
      ensures removed == Lookup(old(items), k)
      ensures Valid() && Abs() == Cleared(old(Abs()), hash, k)
      ensures buckets == old(buckets) && UthashSort.Among(items, old(items))
    {
      ClearedCases(Abs(), hash, k, Lookup(items, k));
      removed := RemoveFound(k, Cleared(Abs(), hash, k));
    }

    ghost predicate AfterRemoval(x: Item?, r: Model)
      reads this, buckets
    {
      if x == null then r == Abs()
      else Abs().Table? && Shaped(Abs()) && x in items && x in Abs().chains[Slot(hash, x, |Abs().chains|)]
           && r == Delete(Abs(), hash, x)
    }

    method RemoveFound(k: Key, ghost r: Model) returns (removed: Item?)
      requires Valid() && AfterRemoval(Lookup(items, k), r)
      modifies this, buckets, items
      ensures removed == Lookup(old(items), k)
      ensures Valid() && Abs() == r
      ensures buckets == old(buckets) && UthashSort.Among(items, old(items))
    {
      removed := Seek(k);
      assert Valid();
      if removed != null {
        DeleteFound(removed, r);
      }
    }

    method Seek(k: Key) returns (out: Item?)
      requires Valid()
      ensures out == Lookup(items, k) && (out != null ==> out in items)
    {
      out := FindKey(k);
    }

    method DeleteFound(x: Item, ghost r: Model)
      requires Valid() && x in items && AfterRemoval(x, r)
      modifies this, buckets, items
      ensures Valid() && Abs() == r
      ensures buckets == old(buckets) && UthashSort.Among(items, old(items))
    {
      DeleteItem(x);
    }

    method ReplaceItem(x: Item) returns (replaced: Item?)
      requires Valid()
      modifies this, buckets, items, x
      ensures replaced == Lookup(old(items), x.key)
      ensures Valid() && Abs() == Replace(old(Abs()), hash, x)
      ensures buckets == old(buckets) || fresh(buckets)
    {
      replaced := RemoveKey(x.key);
      AddItem(x);
    }

    // ---- sorting ------------------------------------------------------------------------------------------

    method SortItems(cmp: Comparator)
      requires Valid()
      modifies `head, `tail, `items, items`next, items`prev
      ensures Abs() == Sort(old(Abs()), cmp) && Valid()
    {
      if head != null {
        SortValid(Abs(), hash, cmp);
        SortMembers(cmp, items);
        SortHandles(cmp, UthashSort.MergeSort(cmp, items));
      }
    }

    method SortHandles(cmp: Comparator, ghost t: seq<Item>)
      requires Ordered() && Hashed() && Bucketed()
      requires t == UthashSort.MergeSort(cmp, items) && NoDup(t)
      requires UthashSort.Among(t, items) && UthashSort.Among(items, t)
      modifies `head, `tail, `items, items`next, items`prev
      ensures Ordered() && Hashed() && Bucketed() && numItems == old(numItems)
      ensures Table0() == WithItems(old(Table0()), t)
    {
      RelinkSorted(cmp);
      Relist(t);
    }

    method RelinkSorted(cmp: Comparator)
      requires Ordered()
      modifies `head, `tail, items`next, items`prev
      ensures var t := UthashSort.MergeSort(cmp, items);
              t != [] && AppLinked(t) && head == t[0] && tail == t[|t| - 1]
      ensures Table0() == old(Table0())
    {
      head, tail := UthashRelink.SortList(head, cmp, items);
    }

    /** Record in the ghost sequence the new order of the same items. */
    ghost method Relist(t: seq<Item>)
      requires t != [] && NoDup(t) && AppLinked(t) && head == t[0] && tail == t[|t| - 1]
      requires UthashSort.Among(t, items) && UthashSort.Among(items, t)
      requires Hashed() && Bucketed()
      modifies `items
      ensures Ordered() && Hashed() && Bucketed() && items == t && Table0() == WithItems(old(Table0()), t)
    {
      items := t;
    }

    // ---- the integrity check ------------------------------------------------------------------------------

    /** The forward links can be walked: they lead through these chains and this application order. */
    ghost predicate Walkable()
      reads this, buckets, items`hhNext, items`next
    {
      head != null ==>
        && Sized()
        && (forall j, i | 0 <= j < |chains| && 0 <= i < |chains[j]| :: chains[j][i] in items)
        && (forall j | 0 <= j < numBuckets :: buckets[j].hhHead == At(chains[j], 0) && NextLinked(chains[j], 0))
        && head == At(items, 0) && AppNextLinked(items)
    }

    /** What the check looks for: the back-links of every chain and of the application order, the count of every
        bucket, and the total count against both. */
    ghost predicate Consistent()
      requires Walkable() && head != null
      reads this, buckets, items`hhNext, items`next, items`hhPrev, items`prev
    {
      && BucketsCheck(buckets[..], chains, items, numBuckets)
      && Sum(Lens(chains)) == numItems
      && AppBackLinked(items) && |items| == numItems
    }

    /** HASH_FSCK: recount every bucket and the application order, comparing all back-links and counts; it complains
        exactly when something is inconsistent. */
    method Fsck() returns (ok: bool)
      requires Walkable()
      ensures ok <==> (head != null ==> Consistent())
    {
      ok := true;
      if head != null {
        var good, count := FsckBuckets();
        ok := good && count == numItems;
        good, count := FsckOrder();
        ok := ok && good && count == numItems;
      }
    }

    method FsckBuckets() returns (ok: bool, count: nat)
      requires head != null && Walkable()
      ensures ok <==> BucketsCheck(buckets[..], chains, items, numBuckets)
      ensures count == Sum(Lens(chains))
    {
      ok, count := true, 0;
      var i := 0;
      while i < numBuckets
        invariant 0 <= i <= numBuckets
        invariant ok <==> BucketsCheck(buckets[..], chains, items, i)
        invariant count == Sum(Lens(chains)[..i])
      {
        var good, n := FsckBucket(buckets[i], chains[i]);
        BucketsCheckNext(buckets[..], chains, items, i);
        ok := ok && good;
        count := count + n;
        SumNext(Lens(chains), i);
        i := i + 1;
      }
      assert Lens(chains)[..numBuckets] == Lens(chains);
    }

    method FsckBucket(b: Bucket, ghost c: seq<Item>) returns (ok: bool, count: nat)
      requires b.hhHead == At(c, 0) && NextLinked(c, 0)
      ensures ok <==> b.count == |c| && BackLinked(c)
      ensures count == |c|
    {
      ok, count := true, 0;
      var thh, prev: Item? := b.hhHead, null;
      while thh != null
        invariant 0 <= count <= |c| && thh == At(c, count) && prev == At(c, count - 1)
        invariant ok <==> forall i {:trigger c[i].hhPrev} | 0 <= i < count :: c[i].hhPrev == At(c, i - 1)
        decreases |c| - count
      {
        ok := ok && prev == thh.hhPrev;
        count := count + 1;
        prev := thh;
        thh := thh.hhNext;
      }
      ok := ok && b.count == count;
    }

    method FsckOrder() returns (ok: bool, count: nat)
      requires head == At(items, 0) && AppNextLinked(items)
      ensures ok <==> AppBackLinked(items)
      ensures count == |items|
    {
      ok, count := true, 0;
      var thh, prev: Item? := head, null;
      while thh != null
        invariant 0 <= count <= |items| && thh == At(items, count) && prev == At(items, count - 1)
        invariant ok <==> forall i {:trigger items[i].prev} | 0 <= i < count :: items[i].prev == At(items, i - 1)
        decreases |items| - count
      {
        ok := ok && prev == thh.prev;
        count := count + 1;
        prev := thh;
        thh := thh.next;
      }
    }

    /** The invariant of the table implies everything the check looks for. */
    lemma ValidIsConsistent()
      requires Valid()
      ensures Walkable() && (head != null ==> Consistent())
    {
      if head != null {
        ChainsCheck(buckets[..], chains, items);
        assert forall j | 0 <= j < numBuckets :: buckets[..][j] == buckets[j];
      }
    }
  }

  lemma ChainsCheck(bs: seq<Bucket>, chains: seq<seq<Item>>, items: seq<Item>)
    requires BucketsHold(bs, chains, items)
    ensures BucketsCheck(bs, chains, items, |bs|)
    ensures forall j | 0 <= j < |bs| :: bs[j].hhHead == At(chains[j], 0) && NextLinked(chains[j], 0)
  {
    forall j | 0 <= j < |bs|
      ensures bs[j].hhHead == At(chains[j], 0) && NextLinked(chains[j], 0)
      ensures bs[j].count == |chains[j]| && BackLinked(chains[j])
    {
      assert BucketHolds(bs[j], chains[j]);
    }
  }
}
