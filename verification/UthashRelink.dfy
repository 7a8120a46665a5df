/** HASH_SRT on the links: the merge sort relinks the application order in place. */
module UthashRelink {
  import opened Seqs
  import opened UthashTypes
  import opened UthashSpec
  import opened UthashLinks
  import opened UthashSort

  /** The nodes of s are chained through `next`; where the last one points is left open. */
  ghost predicate Chained(s: seq<Item>)
    reads s`next
  {
    forall i {:trigger s[i].next} | 0 <= i < |s| - 1 :: s[i].next == s[i + 1]
  }

  /** Output built so far: both link directions, except the last node's `next`. */
  ghost predicate Output(s: seq<Item>, list: Item?, tail: Item?)
    reads s`next, s`prev
  {
    && Chained(s)
    && (forall i {:trigger s[i].prev} | 0 <= i < |s| :: s[i].prev == At(s, i - 1))
    && list == At(s, 0) && tail == At(s, |s| - 1)
  }

  /** Input not yet consumed, ending the list. */
  ghost predicate Input(s: seq<Item>, first: Item?)
    reads s`next
  {
    first == At(s, 0) && Chained(s) && (s != [] ==> s[|s| - 1].next == null)
  }

  ghost predicate Apart(a: seq<Item>, b: seq<Item>) {
    forall i, j | 0 <= i < |a| && 0 <= j < |b| :: a[i] != b[j]
  }

  /** Put e after the output's last node. */
  method Emit(e: Item, list: Item?, tail: Item?, ghost out: seq<Item>) returns (list': Item, tail': Item)
    requires Output(out, list, tail) && NoDup(out) && e !in out
    modifies e`prev, if tail == null then {} else {tail}`next
    ensures Output(out + [e], list', tail')
  {
    list' := e;
    if tail != null {
      tail.next := e;
      list' := list;
    }
    e.prev := tail;
    tail' := e;
  }

  /** The run of at most n nodes at the front of the remaining input, and what follows it. */
  function Run(qs: seq<Item>, n: nat): seq<Item> {
    qs[..Min(n, |qs|)]
  }

  function After(qs: seq<Item>, n: nat): seq<Item> {
    qs[Min(n, |qs|)..]
  }

  /** Output, left run and remaining input share no node and lie within `all`. */
  ghost predicate Parted(all: seq<Item>, out: seq<Item>, ps: seq<Item>, qs: seq<Item>) {
    && NoDup(out) && NoDup(ps) && NoDup(qs)
    && Apart(out, ps) && Apart(out, qs) && Apart(ps, qs)
    && Among(out, all) && Among(ps, all) && Among(qs, all)
  }

  ghost predicate Left(ps: seq<Item>, p: Item?, psize: nat)
    reads ps`next
  {
    Chained(ps) && psize == |ps| && (ps != [] ==> p == ps[0])
  }

  /** The choice the merge makes: from the right run when the left is used up, or the right one's next item is
      strictly smaller. */
  predicate FromRight(cmp: Comparator, ps: seq<Item>, run: seq<Item>) {
    ps == [] || (run != [] && cmp(ps[0], run[0]) > 0)
  }

  lemma MergeUnfold(cmp: Comparator, out: seq<Item>, ps: seq<Item>, run: seq<Item>)
    requires ps != [] || run != []
    ensures FromRight(cmp, ps, run) ==> out + Merge(cmp, ps, run) == (out + [run[0]]) + Merge(cmp, ps, run[1..])
    ensures !FromRight(cmp, ps, run) ==> out + Merge(cmp, ps, run) == (out + [ps[0]]) + Merge(cmp, ps[1..], run)
  {
    MergeTakes(cmp, ps, run);
    if FromRight(cmp, ps, run) {
      Associate(out, [run[0]], Merge(cmp, ps, run[1..]));
    } else {
      Associate(out, [ps[0]], Merge(cmp, ps[1..], run));
    }
  }

  lemma MergeTakes(cmp: Comparator, ps: seq<Item>, run: seq<Item>)
    requires ps != [] || run != []
    ensures FromRight(cmp, ps, run) ==> Merge(cmp, ps, run) == [run[0]] + Merge(cmp, ps, run[1..])
    ensures !FromRight(cmp, ps, run) ==> Merge(cmp, ps, run) == [ps[0]] + Merge(cmp, ps[1..], run)
  {
  }

  lemma PartedPop(all: seq<Item>, out: seq<Item>, ps: seq<Item>, qs: seq<Item>)
    requires Parted(all, out, ps, qs)
    ensures qs != [] ==>
              Parted(all, out, ps, qs[1..]) && qs[0] in all && qs[0] !in out && qs[0] !in ps && qs[0] !in qs[1..]
    ensures ps != [] ==>
              Parted(all, out, ps[1..], qs) && ps[0] in all && ps[0] !in out && ps[0] !in ps[1..] && ps[0] !in qs
  {
  }

  function Advance(cmp: Comparator, out: seq<Item>, ps: seq<Item>, qs: seq<Item>, qsize: nat)
      : (r: (seq<Item>, seq<Item>, seq<Item>, nat))
    requires ps != [] || Run(qs, qsize) != []
  {
    if FromRight(cmp, ps, Run(qs, qsize)) then (out + [qs[0]], ps, qs[1..], qsize - 1)
    else (out + [ps[0]], ps[1..], qs, qsize)
  }

  lemma Advanced(cmp: Comparator, out: seq<Item>, ps: seq<Item>, qs: seq<Item>, qsize: nat)
    requires ps != [] || Run(qs, qsize) != []
    ensures var (out', ps', qs', qsize') := Advance(cmp, out, ps, qs, qsize);
            && out' + Merge(cmp, ps', Run(qs', qsize')) == out + Merge(cmp, ps, Run(qs, qsize))
            && After(qs', qsize') == After(qs, qsize)
            && |ps'| + |qs'| < |ps| + |qs|
  {
    MergeUnfold(cmp, out, ps, Run(qs, qsize));
    if FromRight(cmp, ps, Run(qs, qsize)) {
      RunTail(qs, qsize);
    }
  }

  lemma RunTail(qs: seq<Item>, n: nat)
    requires qs != [] && n > 0
    ensures Run(qs, n)[0] == qs[0] && Run(qs, n)[1..] == Run(qs[1..], n - 1)
    ensures After(qs, n) == After(qs[1..], n - 1)
  {
  }

  method TakeNext(p: Item?, psize: nat, q: Item?, qsize: nat, cmp: Comparator, ghost ps: seq<Item>, ghost qs: seq<Item>)
      returns (e: Item, p': Item?, psize': nat, q': Item?, qsize': nat)
    requires Left(ps, p, psize) && Input(qs, q)
    requires psize != 0 || (qsize != 0 && q != null)
    ensures FromRight(cmp, ps, Run(qs, qsize)) ==>
              qs != [] && e == qs[0] && qsize' == qsize - 1 && Left(ps, p', psize') && Input(qs[1..], q')
    ensures !FromRight(cmp, ps, Run(qs, qsize)) ==>
              ps != [] && e == ps[0] && Left(ps[1..], p', psize') && qsize' == qsize && q' == q
  {
    p', psize', q', qsize' := p, psize, q, qsize;
    if psize == 0 {
      e := q;
      q' := q.next;
      qsize' := qsize - 1;
    } else if qsize == 0 || q == null {
      e := p;
      p' := p.next;
      psize' := psize - 1;
    } else if cmp(p, q) <= 0 {
      e := p;
      p' := p.next;
      psize' := psize - 1;
    } else {
      e := q;
      q' := q.next;
      qsize' := qsize - 1;
    }
  }

  /** Emit a node of `all` that is in neither remaining input; the inputs keep their links. */
  method EmitApart(e: Item, list: Item?, tail: Item?, p: Item?, psize: nat, q: Item?,
                   ghost all: seq<Item>, ghost out: seq<Item>, ghost ps: seq<Item>, ghost qs: seq<Item>)
      returns (list': Item, tail': Item)
    requires Output(out, list, tail) && Left(ps, p, psize) && Input(qs, q)
    requires Parted(all, out, ps, qs) && e in all && e !in out && e !in ps && e !in qs
    modifies all`next, all`prev
    ensures Output(out + [e], list', tail') && Left(ps, p, psize) && Input(qs, q)
    ensures Parted(all, out + [e], ps, qs)
  {
    list', tail' := Emit(e, list, tail, out);
  }

  /** Merge the run ps with the next run of at most qsize nodes at the front of qs, appending to the output. */
  method MergeRuns(p0: Item, psize0: nat, q0: Item?, qsize0: nat, list0: Item?, tail0: Item?, cmp: Comparator,
                   ghost all: seq<Item>, ghost out0: seq<Item>, ghost ps0: seq<Item>, ghost qs0: seq<Item>)
      returns (list: Item?, tail: Item?, q: Item?)
    requires Output(out0, list0, tail0) && Left(ps0, p0, psize0) && Input(qs0, q0)
    requires Parted(all, out0, ps0, qs0)
    modifies all`next, all`prev
    ensures Output(out0 + Merge(cmp, ps0, Run(qs0, qsize0)), list, tail) && Input(After(qs0, qsize0), q)
    ensures Parted(all, out0 + Merge(cmp, ps0, Run(qs0, qsize0)), [], After(qs0, qsize0))
  {
    list, tail, q := list0, tail0, q0;
    var p: Item?, psize, qsize := p0, psize0, qsize0;
    ghost var out, ps, qs := out0, ps0, qs0;
    while psize != 0 || (qsize != 0 && q != null)
      invariant Output(out, list, tail) && Left(ps, p, psize) && Input(qs, q)
      invariant Parted(all, out, ps, qs)
      invariant out + Merge(cmp, ps, Run(qs, qsize)) == out0 + Merge(cmp, ps0, Run(qs0, qsize0))
      invariant After(qs, qsize) == After(qs0, qsize0)
      decreases |ps| + |qs|
    {
      Advanced(cmp, out, ps, qs, qsize);
      list, tail, p, psize, q, qsize, out, ps, qs := MergeStep(list, tail, p, psize, q, qsize, cmp, all, out, ps, qs);
    }
    assert out + [] == out;
  }

  method MergeStep(list: Item?, tail: Item?, p: Item?, psize: nat, q: Item?, qsize: nat, cmp: Comparator,
                   ghost all: seq<Item>, ghost out: seq<Item>, ghost ps: seq<Item>, ghost qs: seq<Item>)
      returns (list': Item?, tail': Item?, p': Item?, psize': nat, q': Item?, qsize': nat,
               ghost out': seq<Item>, ghost ps': seq<Item>, ghost qs': seq<Item>)
    requires Output(out, list, tail) && Left(ps, p, psize) && Input(qs, q)
    requires Parted(all, out, ps, qs)
    requires psize != 0 || (qsize != 0 && q != null)
    modifies all`next, all`prev
    ensures Output(out', list', tail') && Left(ps', p', psize') && Input(qs', q')
    ensures Parted(all, out', ps', qs')
    ensures (out', ps', qs', qsize') == Advance(cmp, out, ps, qs, qsize)
  {
    var e;
    PartedPop(all, out, ps, qs);
    e, p', psize', q', qsize' := TakeNext(p, psize, q, qsize, cmp, ps, qs);
    if FromRight(cmp, ps, Run(qs, qsize)) {
      ps', qs' := ps, qs[1..];
    } else {
      ps', qs' := ps[1..], qs;
    }
    list', tail' := EmitApart(e, list, tail, p', psize', q', all, out, ps', qs');
    out' := out + [e];
  }

  /** Count off the left run and find where the right one starts. */
  method MeasureRun(p: Item, insize: nat, ghost s: seq<Item>) returns (q: Item?, psize: nat)
    requires s != [] && Input(s, p) && insize > 0
    ensures psize == Min(insize, |s|) && q == At(s, psize)
  {
    q, psize := p, 0;
    var i := 0;
    while i < insize
      invariant 0 <= i <= insize && psize == i < |s| && q == At(s, psize)
    {
      psize := psize + 1;
      q := q.next;
      if q == null {
        break;
      }
      i := i + 1;
    }
  }

  lemma PassUnfold(cmp: Comparator, out: seq<Item>, rest: seq<Item>, k: nat)
    requires rest != [] && k > 0
    ensures var m := Min(k, |rest|);
            var (ps, qs) := (rest[..m], rest[m..]);
            out + Pass(cmp, rest, k) == (out + Merge(cmp, ps, Run(qs, k))) + Pass(cmp, After(qs, k), k)
  {
    var m, n := Min(k, |rest|), Min(2 * k, |rest|);
    CutAgain(rest, m, n, k);
    Associate(out, Merge(cmp, rest[..m], rest[m..n]), Pass(cmp, rest[n..], k));
  }

  lemma CutAgain(rest: seq<Item>, m: nat, n: nat, k: nat)
    requires k > 0 && m == Min(k, |rest|) && n == Min(2 * k, |rest|)
    ensures Run(rest[m..], k) == rest[m..n] && After(rest[m..], k) == rest[n..]
  {
  }

  lemma PartedCut(all: seq<Item>, out: seq<Item>, rest: seq<Item>, m: nat)
    requires Parted(all, out, [], rest) && m <= |rest|
    ensures Parted(all, out, rest[..m], rest[m..])
  {
  }

  /** One pass over the whole list, merging neighbouring runs of `insize` nodes. */
  method SortPass(first: Item, insize: nat, cmp: Comparator, ghost s: seq<Item>)
      returns (list: Item, tail: Item, nmerges: nat)
    requires s != [] && NoDup(s) && Input(s, first) && insize > 0
    modifies s`next, s`prev
    ensures var t := Pass(cmp, s, insize);
            AppLinked(t) && NoDup(t) && list == t[0] && tail == t[|t| - 1]
    ensures nmerges <= 1 <==> |s| <= 2 * insize
  {
    var l, e;
    l, e, nmerges := MergePairs(first, insize, cmp, s);
    list, tail := Close(l, e, Pass(cmp, s, insize));
  }

  method MergePairs(first: Item, insize: nat, cmp: Comparator, ghost s: seq<Item>)
      returns (l: Item?, e: Item?, nmerges: nat)
    requires s != [] && NoDup(s) && Input(s, first) && insize > 0
    modifies s`next, s`prev
    ensures Output(Pass(cmp, s, insize), l, e) && NoDup(Pass(cmp, s, insize)) && Among(Pass(cmp, s, insize), s)
    ensures nmerges <= 1 <==> |s| <= 2 * insize
  {
    var p: Item?;
    p, l, e, nmerges := first, null, null, 0;
    ghost var out, rest := [], s;
    EmptyEnds(Pass(cmp, s, insize));
    PartedStart(s);
    while p != null
      invariant Output(out, l, e) && Input(rest, p) && Parted(s, out, [], rest)
      invariant out + Pass(cmp, rest, insize) == Pass(cmp, s, insize)
      invariant Counted(nmerges, |rest|, |s|, 2 * insize)
      decreases |rest|
    {
      nmerges := nmerges + 1;
      l, e, p, out, rest := MergePair(p, insize, l, e, cmp, s, out, rest);
    }
    EmptyEnds(out);
  }

  lemma PartedStart(s: seq<Item>)
    requires NoDup(s)
    ensures Parted(s, [], [], s)
  {
  }

  predicate Counted(merges: nat, rest: nat, total: nat, width: nat) {
    && (merges == 0 ==> rest == total)
    && (merges == 1 ==> rest == if total <= width then 0 else total - width)
    && (merges >= 2 ==> total > width)
  }

  method Close(l: Item?, e: Item?, ghost out: seq<Item>) returns (list: Item, tail: Item)
    requires Output(out, l, e) && NoDup(out) && out != []
    modifies out`next
    ensures AppLinked(out) && list == out[0] && tail == out[|out| - 1]
  {
    list, tail := l, e;
    tail.next := null;
  }

  /** Cut the remaining input where the second run starts. */
  lemma InputCut(rest: seq<Item>, p: Item, m: nat)
    requires rest != [] && Input(rest, p) && 0 < m <= |rest|
    ensures Left(rest[..m], p, m) && Input(rest[m..], At(rest, m))
  {
  }

  /** Merge the first two runs of the remaining input. */
  method MergePair(p: Item, insize: nat, list: Item?, tail: Item?, cmp: Comparator,
                   ghost all: seq<Item>, ghost out: seq<Item>, ghost rest: seq<Item>)
      returns (list': Item?, tail': Item?, p': Item?, ghost out': seq<Item>, ghost rest': seq<Item>)
    requires rest != [] && insize > 0
    requires Output(out, list, tail) && Input(rest, p) && Parted(all, out, [], rest)
    modifies all`next, all`prev
    ensures Output(out', list', tail') && Input(rest', p') && Parted(all, out', [], rest')
    ensures out' + Pass(cmp, rest', insize) == out + Pass(cmp, rest, insize)
    ensures |rest'| == if |rest| <= 2 * insize then 0 else |rest| - 2 * insize
  {
    var q, psize := MeasureRun(p, insize, rest);
    ghost var ps, qs := rest[..psize], rest[psize..];
    InputCut(rest, p, psize);
    PartedCut(all, out, rest, psize);
    PassUnfold(cmp, out, rest, insize);
    AfterLength(rest, insize, psize);
    list', tail', p' := MergeRuns(p, psize, q, insize, list, tail, cmp, all, out, ps, qs);
    out', rest' := out + Merge(cmp, ps, Run(qs, insize)), After(qs, insize);
  }

  lemma AfterLength(rest: seq<Item>, k: nat, m: nat)
    requires m == Min(k, |rest|)
    ensures |After(rest[m..], k)| == if |rest| <= 2 * k then 0 else |rest| - 2 * k
  {
  }

  /** Sort the application order, doubling the run length until one merge is enough. */
  method SortList(first: Item, cmp: Comparator, ghost s: seq<Item>) returns (list: Item, tail: Item)
    requires s != [] && NoDup(s) && AppLinked(s) && first == s[0]
    modifies s`next, s`prev
    ensures var t := MergeSort(cmp, s);
            AppLinked(t) && list == t[0] && tail == t[|t| - 1]
  {
    var insize, looping := 1, true;
    list := first;
    tail := first;
    ghost var t := s;
    while looping
      invariant insize > 0 && |t| == |s| && NoDup(t) && Among(t, s) && AppLinked(t) && list == t[0]
      invariant looping ==> Passes(cmp, t, insize) == MergeSort(cmp, s)
      invariant !looping ==> t == MergeSort(cmp, s) && tail == t[|t| - 1]
      decreases looping, |s| - insize
    {
      PassPermutes(cmp, t, insize);
      AmongPermuted(t, Pass(cmp, t, insize), s);
      var nmerges;
      list, tail, nmerges := SortPass(list, insize, cmp, t);
      t := Pass(cmp, t, insize);
      if nmerges <= 1 {
        looping := false;
      }
      insize := insize * 2;
    }
  }
}
