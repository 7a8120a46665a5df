/** The two doubly linked structures that the handles carry: a bucket's chain and the application order. */
module UthashLinks {
  import opened Seqs
  import opened UthashTypes

  function At(s: seq<Item>, i: int): Item? {
    if 0 <= i < |s| then s[i] else null
  }

  ghost predicate ChainLinked(c: seq<Item>)
    reads c`hhNext, c`hhPrev
  {
    && (forall i {:trigger c[i].hhNext} | 0 <= i < |c| :: c[i].hhNext == At(c, i + 1))
    && (forall i {:trigger c[i].hhPrev} | 0 <= i < |c| :: c[i].hhPrev == At(c, i - 1))
  }

  ghost predicate AppLinked(s: seq<Item>)
    reads s`next, s`prev
  {
    && (forall i {:trigger s[i].next} | 0 <= i < |s| :: s[i].next == At(s, i + 1))
    && (forall i {:trigger s[i].prev} | 0 <= i < |s| :: s[i].prev == At(s, i - 1))
  }

  /** Link x in front of the chain whose first item is `first`. */
  method PushFront(x: Item, first: Item?, ghost c: seq<Item>)
    requires ChainLinked(c) && NoDup(c) && x !in c && first == At(c, 0)
    modifies x`hhNext, x`hhPrev, c`hhPrev
    ensures ChainLinked([x] + c)
  {
    x.hhNext := first;
    x.hhPrev := null;
    if first != null {
      first.hhPrev := x;
    }
  }

  /** Take x out of the chain; the caller repairs the bucket's head. */
  method UnlinkFromChain(x: Item, ghost c: seq<Item>, ghost k: nat)
    requires ChainLinked(c) && NoDup(c) && k < |c| && c[k] == x
    modifies c`hhNext, c`hhPrev
    ensures ChainLinked(c[..k] + c[k + 1..])
    ensures x.hhNext == old(x.hhNext) == At(c, k + 1)
    ensures x.hhPrev == old(x.hhPrev) == At(c, k - 1)
  {
    if x.hhPrev != null {
      x.hhPrev.hhNext := x.hhNext;
    }
    if x.hhNext != null {
      x.hhNext.hhPrev := x.hhPrev;
    }
    ghost var r := c[..k] + c[k + 1..];
    forall i | 0 <= i < |r|
      ensures r[i].hhNext == At(r, i + 1) && r[i].hhPrev == At(r, i - 1)
    {
      assert r[i] == c[if i < k then i else i + 1];
    }
  }

  /** Append x after the last item. */
  method AppendAfter(x: Item, last: Item, ghost s: seq<Item>)
    requires AppLinked(s) && NoDup(s) && x !in s && s != [] && last == s[|s| - 1]
    modifies x`next, x`prev, last`next
    ensures AppLinked(s + [x])
  {
    x.next := null;
    x.prev := last;
    last.next := x;
  }

  /** Link x in front of `iter`, which is the item at position k. */
  method InsertBefore(x: Item, iter: Item, ghost s: seq<Item>, ghost k: nat)
    requires AppLinked(s) && NoDup(s) && x !in s && k < |s| && iter == s[k]
    modifies x`next, x`prev, s`next, s`prev
    ensures AppLinked(s[..k] + [x] + s[k..])
    ensures x.prev == At(s, k - 1)
  {
    x.next := iter;
    x.prev := iter.prev;
    if x.prev != null {
      x.prev.next := x;
    }
    iter.prev := x;
  }

  /** Take x out of the application order; the caller repairs head and tail. */
  method UnlinkFromApp(x: Item, ghost s: seq<Item>, ghost k: nat)
    requires AppLinked(s) && NoDup(s) && k < |s| && s[k] == x
    modifies s`next, s`prev
    ensures AppLinked(s[..k] + s[k + 1..])
    ensures x.next == old(x.next) == At(s, k + 1)
    ensures x.prev == old(x.prev) == At(s, k - 1)
  {
    if x.prev != null {
      x.prev.next := x.next;
    }
    if x.next != null {
      x.next.prev := x.prev;
    }
    ghost var r := s[..k] + s[k + 1..];
    forall i | 0 <= i < |r|
      ensures r[i].next == At(r, i + 1) && r[i].prev == At(r, i - 1)
    {
      assert r[i] == s[if i < k then i else i + 1];
    }
  }
}
