/** A bucket doubling half done: the first i buckets have been emptied, and the first k items of bucket i. */
module UthashExpansion {
  import opened Bits
  import opened Seqs
  import opened UthashTypes
  import opened UthashSpec
  import opened UthashLaws

  function Moved(h: HashFunction, chains: seq<seq<Item>>, i: nat, k: nat, j: nat): seq<Item>
    requires i <= |chains| && (i < |chains| ==> k <= |chains[i]|) && j < 2 * |chains|
  {
    var n := |chains|;
    if j % n < i then Split(h, chains[j % n], j, 2 * n)
    else if j % n == i then Split(h, chains[i][..k], j, 2 * n)
    else []
  }

  function Partial(h: HashFunction, chains: seq<seq<Item>>, i: nat, k: nat): (r: seq<seq<Item>>)
    requires i <= |chains| && (i < |chains| ==> k <= |chains[i]|)
    ensures |r| == 2 * |chains|
  {
    seq(2 * |chains|, j requires 0 <= j < 2 * |chains| => Moved(h, chains, i, k, j))
  }

  lemma PartialPlaced(h: HashFunction, items: seq<Item>, chains: seq<seq<Item>>, i: nat, k: nat)
    requires |chains| > 0 && Placed(h, items, chains) && ChainsNoDup(chains)
    requires i <= |chains| && (i < |chains| ==> k <= |chains[i]|)
    ensures Placed(h, items, Partial(h, chains, i, k)) && ChainsNoDup(Partial(h, chains, i, k))
  {
    forall j | 0 <= j < 2 * |chains|
      ensures NoDup(Moved(h, chains, i, k, j))
      ensures forall m | 0 <= m < |Moved(h, chains, i, k, j)| ::
                Moved(h, chains, i, k, j)[m] in items && Slot(h, Moved(h, chains, i, k, j)[m], 2 * |chains|) == j
    {
      MovedPlaced(h, items, chains, i, k, j);
    }
  }

  lemma MovedPlaced(h: HashFunction, items: seq<Item>, chains: seq<seq<Item>>, i: nat, k: nat, j: nat)
    requires |chains| > 0 && Placed(h, items, chains) && ChainsNoDup(chains)
    requires i <= |chains| && (i < |chains| ==> k <= |chains[i]|) && j < 2 * |chains|
    ensures NoDup(Moved(h, chains, i, k, j))
    ensures forall m | 0 <= m < |Moved(h, chains, i, k, j)| ::
              Moved(h, chains, i, k, j)[m] in items && Slot(h, Moved(h, chains, i, k, j)[m], 2 * |chains|) == j
  {
    var n := |chains|;
    var b := j % n;
    if b <= i {
      var part := if b < i then chains[b] else chains[b][..k];
      SplitMembers(h, part, j, 2 * n);
      forall m | 0 <= m < |Split(h, part, j, 2 * n)|
        ensures Split(h, part, j, 2 * n)[m] in items
      {
        var y := Split(h, part, j, 2 * n)[m];
        assert y in part;
        PlacedMember(h, items, chains, b, y);
      }
    }
  }

  lemma MovedStep(h: HashFunction, chains: seq<seq<Item>>, i: nat, k: nat, j: nat)
    requires i < |chains| && k < |chains[i]| && j < 2 * |chains|
    requires Slot(h, chains[i][k], |chains|) == i
    ensures Moved(h, chains, i, k + 1, j)
         == (if j == Slot(h, chains[i][k], 2 * |chains|) then [chains[i][k]] else []) + Moved(h, chains, i, k, j)
  {
    DoubledModulus(h(chains[i][k].key), |chains|);
    var more := chains[i][..k + 1];
    assert more[..|more| - 1] == chains[i][..k];
  }

  lemma NotYetMoved(h: HashFunction, chains: seq<seq<Item>>, i: nat, k: nat)
    requires i < |chains| && k < |chains[i]| && NoDup(chains[i])
    requires Slot(h, chains[i][k], |chains|) == i
    ensures chains[i][k] !in Moved(h, chains, i, k, Slot(h, chains[i][k], 2 * |chains|))
  {
    var b := Slot(h, chains[i][k], 2 * |chains|);
    DoubledModulus(h(chains[i][k].key), |chains|);
    SplitMembers(h, chains[i][..k], b, 2 * |chains|);
  }

  /** Moving the next item puts it at the front of the new bucket its hash selects. */
  lemma PartialStep(h: HashFunction, items: seq<Item>, chains: seq<seq<Item>>, i: nat, k: nat)
    requires |chains| > 0 && Placed(h, items, chains) && ChainsNoDup(chains)
    requires i < |chains| && k < |chains[i]|
    ensures var p := Partial(h, chains, i, k);
            var x := chains[i][k];
            var b := Slot(h, x, 2 * |chains|);
            x !in p[b] && Partial(h, chains, i, k + 1) == p[b := [x] + p[b]]
  {
    PlacedMember(h, items, chains, i, chains[i][k]);
    NotYetMoved(h, chains, i, k);
    MovedToFront(h, chains, i, k, chains[i][k], Slot(h, chains[i][k], 2 * |chains|));
  }

  lemma MovedToFront(h: HashFunction, chains: seq<seq<Item>>, i: nat, k: nat, x: Item, b: nat)
    requires i < |chains| && k < |chains[i]| && x == chains[i][k] && Slot(h, x, |chains|) == i
    requires b == Slot(h, x, 2 * |chains|)
    ensures var p := Partial(h, chains, i, k);
            Partial(h, chains, i, k + 1) == p[b := [x] + p[b]]
  {
    var p, r := Partial(h, chains, i, k), Partial(h, chains, i, k + 1);
    forall j | 0 <= j < 2 * |chains|
      ensures r[j] == p[b := [x] + p[b]][j]
    {
      MovedStep(h, chains, i, k, j);
    }
  }

  /** Before anything has moved every new bucket is empty. */
  lemma PartialStart(h: HashFunction, chains: seq<seq<Item>>, ideal: nat)
    requires |chains| > 0 && ideal > 0
    ensures forall j | 0 <= j < 2 * |chains| :: Partial(h, chains, 0, 0)[j] == []
    ensures Mults(Partial(h, chains, 0, 0), ideal) == seq(2 * |chains|, _ => 0)
    ensures Sum(Excesses(Partial(h, chains, 0, 0), ideal)) == 0
  {
    assert chains[0][..0] == [];
    SumConstant(Excesses(Partial(h, chains, 0, 0), ideal), 0);
  }

  lemma PartialNext(h: HashFunction, chains: seq<seq<Item>>, i: nat)
    requires i < |chains|
    ensures Partial(h, chains, i, |chains[i]|) == Partial(h, chains, i + 1, 0)
  {
    assert chains[i][..|chains[i]|] == chains[i];
    if i + 1 < |chains| {
      assert chains[i + 1][..0] == [];
    }
  }

  lemma PartialEnd(h: HashFunction, chains: seq<seq<Item>>)
    requires |chains| > 0
    ensures Partial(h, chains, |chains|, 0) == ExpandedChains(h, chains)
  {
  }

  /** One more item in new bucket b: its multiplier and the count of misplaced items, item by item as the loop
      computes them, agree with what the finished chains determine. */
  lemma CountsStep(p: seq<seq<Item>>, b: nat, x: Item, ideal: nat)
    requires b < |p| && ideal > 0
    ensures Sum(Excesses(p[b := [x] + p[b]], ideal))
         == Sum(Excesses(p, ideal)) + (if |p[b]| + 1 > ideal then 1 else 0)
    ensures var (r, m) := (Mults(p[b := [x] + p[b]], ideal), MultFor(|p[b]| + 1, ideal));
            && r == Mults(p, ideal)[b := m]
            && (if |p[b]| + 1 <= ideal then r[b] == 0 else r[b] * ideal <= |p[b]| + 1 < (r[b] + 1) * ideal)
  {
    var q := p[b := [x] + p[b]];
    MultiplierFits(|p[b]| + 1, ideal);
    assert Excesses(q, ideal) == Excesses(p, ideal)[b := ExcessOf(|p[b]| + 1, ideal)];
    SumUpdate(Excesses(p, ideal), b, ExcessOf(|p[b]| + 1, ideal));
  }
}
