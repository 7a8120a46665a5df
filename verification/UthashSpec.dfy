/** What the uthash macros compute, on values: a table is an application-ordered sequence of items and one
    chain per bucket. The table class is proved to follow these functions; here they are proved to do what the
    header promises. */
module UthashTypes {

  import opened Bits

  /** keyptr and keylen: the bytes of the key. */
  type Key = seq<byte>

  type HashFunction = Key -> nat

  /** An application structure together with the hash handle embedded in it. */
  class Item {
    const key: Key
    var hashv: nat
    var prev: Item?
    var next: Item?
    var hhPrev: Item?
    var hhNext: Item?

    constructor (key: Key)
      ensures this.key == key
    {
      this.key := key;
      hashv, prev, next, hhPrev, hhNext := 0, null, null, null, null;
    }
  }

  datatype Bucket = Bucket(hhHead: Item?, count: nat, expandMult: nat)

  const INITIAL_NUM_BUCKETS := 32
  const INITIAL_NUM_BUCKETS_LOG2 := 5
  const BKT_CAPACITY_THRESH := 10
}

module UthashSpec {
  import opened Bits
  import opened Seqs
  import opened UthashTypes

  /** `Absent` is a NULL head: nothing is allocated. */
  datatype Model =
    | Absent
    | Table(items: seq<Item>, chains: seq<seq<Item>>, mults: seq<nat>, log2: nat,
            ideal: nat, nonideal: nat, ineff: nat, noexpand: bool)

  function Items(m: Model): seq<Item> {
    if m.Absent? then [] else m.items
  }

  function Slot(h: HashFunction, x: Item, n: nat): (j: nat)
    requires n > 0
    ensures j < n
  {
    h(x.key) % n
  }

  function Lens(chains: seq<seq<Item>>): (s: seq<nat>)
    ensures |s| == |chains|
  {
    seq(|chains|, j requires 0 <= j < |chains| => |chains[j]|)
  }

  predicate Shaped(m: Model) {
    m.Table? && |m.chains| == |m.mults| == Pow2(m.log2)
  }

  function WithItems(m: Model, items: seq<Item>): (r: Model)
    requires m.Table?
    ensures r.Table?
  {
    m.(items := items)
  }

  function NewTable(): (m: Model)
    ensures m.Table?
  {
    Table([], seq(INITIAL_NUM_BUCKETS, _ => []), seq(INITIAL_NUM_BUCKETS, _ => 0), INITIAL_NUM_BUCKETS_LOG2, 0, 0,
            0, false)
  }

  // ---- expansion ------------------------------------------------------------------------------------------

  /** The items of a chain that belong in slot j of n, last one first. */
  function Split(h: HashFunction, c: seq<Item>, j: nat, n: nat): seq<Item>
    requires n > 0
  {
    if c == [] then []
    else
      var x := c[|c| - 1];
      (if Slot(h, x, n) == j then [x] else []) + Split(h, c[..|c| - 1], j, n)
  }

  function ExpandedChains(h: HashFunction, chains: seq<seq<Item>>): (r: seq<seq<Item>>)
    requires |chains| > 0
    ensures |r| == 2 * |chains|
  {
    seq(2 * |chains|, j requires 0 <= j < 2 * |chains| => Split(h, chains[j % |chains|], j, 2 * |chains|))
  }

  function MultFor(count: nat, ideal: nat): nat
    requires ideal > 0
  {
    if count > ideal then count / ideal else 0
  }

  function ExcessOf(count: nat, ideal: nat): nat {
    if count > ideal then count - ideal else 0
  }

  function Mults(chains: seq<seq<Item>>, ideal: nat): (s: seq<nat>)
    requires ideal > 0
    ensures |s| == |chains|
  {
    seq(|chains|, j requires 0 <= j < |chains| => MultFor(|chains[j]|, ideal))
  }

  function Excesses(chains: seq<seq<Item>>, ideal: nat): (s: seq<nat>)
    ensures |s| == |chains|
  {
    seq(|chains|, j requires 0 <= j < |chains| => ExcessOf(|chains[j]|, ideal))
  }

  function Expand(m: Model, h: HashFunction): (r: Model)
    requires Shaped(m) && |m.items| > 0
    ensures Shaped(r) && r.items == m.items && |r.chains| == 2 * |m.chains|
  {
    var n2 := 2 * |m.chains|;
    var ideal := CeilDiv(|m.items|, n2);
    var chains := ExpandedChains(h, m.chains);
    var nonideal := Sum(Excesses(chains, ideal));
    var ineff := if nonideal > |m.items| / 2 then m.ineff + 1 else 0;
    Table(m.items, chains, Mults(chains, ideal), m.log2 + 1, ideal, nonideal, ineff, m.noexpand || ineff > 1)
  }

  lemma ExpandFields(m: Model, h: HashFunction, r: Model)
    requires Shaped(m) && |m.items| > 0 && r.Table? && r.items == m.items && r.log2 == m.log2 + 1
    requires r.ideal == CeilDiv(|m.items|, 2 * |m.chains|) && r.chains == ExpandedChains(h, m.chains)
    requires r.mults == Mults(r.chains, r.ideal) && r.nonideal == Sum(Excesses(r.chains, r.ideal))
    requires r.ineff == if r.nonideal > |m.items| / 2 then m.ineff + 1 else 0
    requires r.noexpand == (m.noexpand || r.ineff > 1)
    ensures r == Expand(m, h)
  {
  }

  // ---- adding, deleting, finding --------------------------------------------------------------------------

  function Pushed(m: Model, h: HashFunction, x: Item): (r: Model)
    requires Shaped(m)
    ensures Shaped(r)
  {
    var j := Slot(h, x, |m.chains|);
    m.(chains := m.chains[j := [x] + m.chains[j]])
  }

  predicate MustExpand(m: Model, j: nat)
    requires Shaped(m) && j < |m.chains|
  {
    |m.chains[j]| >= (m.mults[j] + 1) * BKT_CAPACITY_THRESH && !m.noexpand
  }

  /** The item is already in the application order; put it in its bucket. */
  function AddToBucket(m: Model, h: HashFunction, x: Item): (r: Model)
    requires Shaped(m) && |m.items| > 0
    ensures Shaped(r) && r.items == m.items
  {
    var p := Pushed(m, h, x);
    if MustExpand(p, Slot(h, x, |m.chains|)) then Expand(p, h) else p
  }

  function Started(m: Model): (r: Model)
    requires m.Table? ==> Shaped(m)
    ensures r.Table? && Shaped(r) && r.items == Items(m)
  {
    if m.Absent? then assert Pow2(5) == 32; NewTable() else m
  }

  function Add(m: Model, h: HashFunction, x: Item): (r: Model)
    requires m.Table? ==> Shaped(m)
    ensures Shaped(r) && r.items == Items(m) + [x]
  {
    var s := Started(m);
    AddToBucket(WithItems(s, s.items + [x]), h, x)
  }

  function Delete(m: Model, h: HashFunction, x: Item): (r: Model)
    requires Shaped(m) && x in m.items && x in m.chains[Slot(h, x, |m.chains|)]
    ensures r.Table? ==> Shaped(r)
  {
    if |m.items| == 1 then Absent
    else
      var j := Slot(h, x, |m.chains|);
      m.(items := Without(m.items, x), chains := m.chains[j := Without(m.chains[j], x)])
  }

  lemma DeleteFields(m: Model, h: HashFunction, x: Item, r: Model)
    requires Shaped(m) && |m.items| > 1 && x in m.items && x in m.chains[Slot(h, x, |m.chains|)] && r.Table?
    requires r.items == Without(m.items, x)
    requires var j := Slot(h, x, |m.chains|); r.chains == m.chains[j := Without(m.chains[j], x)]
    requires r.mults == m.mults && r.log2 == m.log2 && r.ideal == m.ideal && r.nonideal == m.nonideal
    requires r.ineff == m.ineff && r.noexpand == m.noexpand
    ensures r == Delete(m, h, x)
  {
  }

  /** The first item with this key. */
  function Lookup(s: seq<Item>, k: Key): (r: Item?)
    ensures r == null ==> forall x | x in s :: x.key != k
    ensures r != null ==> r in s && r.key == k
  {
    if s == [] then null else if s[0].key == k then s[0] else Lookup(s[1..], k)
  }

  function Find(m: Model, h: HashFunction, k: Key): Item?
    requires m.Table? ==> Shaped(m)
  {
    if m.Absent? then null else Lookup(m.chains[h(k) % |m.chains|], k)
  }

  type Comparator = (Item, Item) -> int

  /** How many items at the front of s come no later than x. */
  function Ahead(cmp: Comparator, s: seq<Item>, x: Item): (k: nat)
    ensures k <= |s|
    ensures forall i | 0 <= i < k :: cmp(s[i], x) <= 0
    ensures k < |s| ==> cmp(s[k], x) > 0
  {
    if s == [] || cmp(s[0], x) > 0 then 0 else 1 + Ahead(cmp, s[1..], x)
  }

  function InsertInOrder(cmp: Comparator, s: seq<Item>, x: Item): (r: seq<Item>)
    ensures |r| == |s| + 1
  {
    var k := Ahead(cmp, s, x);
    s[..k] + [x] + s[k..]
  }

  function AddInOrder(m: Model, h: HashFunction, cmp: Comparator, x: Item): (r: Model)
    requires m.Table? ==> Shaped(m)
    ensures r.Table? && Shaped(r) && r.items == InsertInOrder(cmp, Items(m), x)
  {
    var s := Started(m);
    AddToBucket(WithItems(s, InsertInOrder(cmp, s.items, x)), h, x)
  }

  // ---- the representation invariant -----------------------------------------------------------------------

  ghost predicate DistinctKeys(s: seq<Item>) {
    forall i, j | 0 <= i < j < |s| :: s[i].key != s[j].key
  }

  ghost predicate Placed(h: HashFunction, items: seq<Item>, chains: seq<seq<Item>>)
    requires |chains| > 0
  {
    forall j, i | 0 <= j < |chains| && 0 <= i < |chains[j]| ::
      chains[j][i] in items && Slot(h, chains[j][i], |chains|) == j
  }

  ghost predicate Covered(h: HashFunction, items: seq<Item>, chains: seq<seq<Item>>)
    requires |chains| > 0
  {
    forall x | x in items :: x in chains[Slot(h, x, |chains|)]
  }

  ghost predicate ChainsNoDup(chains: seq<seq<Item>>) {
    forall j | 0 <= j < |chains| :: NoDup(chains[j])
  }

  ghost predicate Linked(m: Model, h: HashFunction)
    requires Shaped(m)
  {
    && DistinctKeys(m.items)
    && Placed(h, m.items, m.chains)
    && Covered(h, m.items, m.chains)
    && ChainsNoDup(m.chains)
    && Sum(Lens(m.chains)) == |m.items|
  }

  /** How long a chain may be, or has been allowed to become: its length or one less than its threshold. */
  function Cap(count: nat, mult: nat): nat {
    var t := (mult + 1) * BKT_CAPACITY_THRESH - 1;
    if count > t then count else t
  }

  function Caps(chains: seq<seq<Item>>, mults: seq<nat>): (s: seq<nat>)
    requires |chains| == |mults|
    ensures |s| == |chains|
  {
    seq(|chains|, j requires 0 <= j < |chains| => Cap(|chains[j]|, mults[j]))
  }

  /** No chain is past its threshold, which is what a further addition to it compares with. */
  ghost predicate WithinThreshold(chains: seq<seq<Item>>, mults: seq<nat>)
    requires |chains| == |mults|
  {
    forall j | 0 <= j < |chains| :: |chains[j]| <= (mults[j] + 1) * BKT_CAPACITY_THRESH
  }

  ghost predicate Loaded(m: Model)
    requires Shaped(m)
  {
    && m.log2 >= INITIAL_NUM_BUCKETS_LOG2
    && m.ideal <= BKT_CAPACITY_THRESH && (m.ideal == 0 <==> m.log2 == INITIAL_NUM_BUCKETS_LOG2)
    && (m.noexpand <==> m.ineff > 1)
    && (!m.noexpand ==> Sum(Caps(m.chains, m.mults)) <= 19 * |m.chains| && WithinThreshold(m.chains, m.mults))
  }

  ghost predicate Valid(m: Model, h: HashFunction) {
    m.Table? ==> Shaped(m) && |m.items| > 0 && Linked(m, h) && Loaded(m)
  }
}
