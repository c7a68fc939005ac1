/** container/heap on run readers: a binary min-heap by current key. */
module RunHeap {
  import opened ByteOrder
  import opened RunFile

  // ---- the heap order on the keys alone ----

  predicate Le(a: Bytes, b: Bytes) {
    !Less(b, a)
  }

  function Parent(k: int): int
    requires k > 0
  {
    (k - 1) / 2
  }

  predicate HeapOrder(keys: seq<Bytes>) {
    forall k | 0 < k < |keys| :: Le(keys[Parent(k)], keys[k])
  }

  /** Heap order except between j and its parent; j's children are above j's parent. */
  predicate UpOrder(keys: seq<Bytes>, j: nat)
    requires j < |keys|
  {
    && (forall k | 0 < k < |keys| && k != j :: Le(keys[Parent(k)], keys[k]))
    && (forall k | 0 < k < |keys| && Parent(k) == j && j > 0 :: Le(keys[Parent(j)], keys[k]))
  }

  /** Heap order except between i and its children; those are above i's parent. */
  predicate DownOrder(keys: seq<Bytes>, i: nat)
    requires i < |keys|
  {
    && (forall k | 0 < k < |keys| && Parent(k) != i :: Le(keys[Parent(k)], keys[k]))
    && (forall k | 0 < k < |keys| && Parent(k) == i && i > 0 :: Le(keys[Parent(i)], keys[k]))
  }

  function Swapped<T>(s: seq<T>, i: nat, j: nat): (r: seq<T>)
    requires i < |s| && j < |s|
    ensures |r| == |s|
  {
    s[i := s[j]][j := s[i]]
  }

  lemma LeTransitive(a: Bytes, b: Bytes, c: Bytes)
    requires Le(a, b) && Le(b, c)
    ensures Le(a, c)
  {
    if Less(c, a) { LessMixed(c, a, b); }
  }

  lemma UpSwap(keys: seq<Bytes>, j: nat)
    requires 0 < j < |keys| && UpOrder(keys, j) && Less(keys[j], keys[Parent(j)])
    ensures UpOrder(Swapped(keys, Parent(j), j), Parent(j))
  {
    var i := Parent(j);
    var x, p, keys' := keys[j], keys[i], Swapped(keys, i, j);
    LessAsymmetric(x, p);
    forall k | 0 < k < |keys| && k != i ensures Le(keys'[Parent(k)], keys'[k]) {
      if k != j && Parent(k) == i { LeTransitive(x, p, keys[k]); }
    }
    forall k | 0 < k < |keys| && Parent(k) == i && i > 0 ensures Le(keys'[Parent(i)], keys'[k]) {
      if k != j { LeTransitive(keys[Parent(i)], p, keys[k]); }
    }
  }

  lemma DownSwap(keys: seq<Bytes>, i: nat, j: nat)
    requires i < j < |keys| && Parent(j) == i && DownOrder(keys, i) && Less(keys[j], keys[i])
    requires forall k | 0 < k < |keys| && Parent(k) == i :: Le(keys[j], keys[k])
    ensures DownOrder(Swapped(keys, i, j), j)
  {
    var keys' := Swapped(keys, i, j);
    LessAsymmetric(keys[j], keys[i]);
    forall k | 0 < k < |keys| && Parent(k) != j ensures Le(keys'[Parent(k)], keys'[k]) {}
    forall k | 0 < k < |keys| && Parent(k) == j ensures Le(keys'[Parent(j)], keys'[k]) {}
  }

  lemma ChildlessDone(keys: seq<Bytes>, i: nat)
    requires i < |keys| && DownOrder(keys, i) && 2 * i + 1 >= |keys|
    ensures HeapOrder(keys)
  {}

  /** The child container/heap compares with is a least child. */
  lemma SmallestChild(keys: seq<Bytes>, i: nat, j: nat)
    requires i < j < |keys| && (j == 2 * i + 1 || j == 2 * i + 2)
    requires j == 2 * i + 1 && j + 1 < |keys| ==> Le(keys[j], keys[j + 1])
    requires j == 2 * i + 2 ==> Less(keys[j], keys[j - 1])
    ensures Parent(j) == i && forall k | 0 < k < |keys| && Parent(k) == i :: Le(keys[j], keys[k])
  {
    LessIrreflexive(keys[j]);
    if j == 2 * i + 2 { LessAsymmetric(keys[j], keys[j - 1]); }
    forall k | 0 < k < |keys| && Parent(k) == i ensures k == 2 * i + 1 || k == 2 * i + 2 {}
  }

  lemma SettledDone(keys: seq<Bytes>, i: nat, j: nat)
    requires i < j < |keys| && DownOrder(keys, i) && Le(keys[i], keys[j])
    requires forall k | 0 < k < |keys| && Parent(k) == i :: Le(keys[j], keys[k])
    ensures HeapOrder(keys)
  {
    forall k | 0 < k < |keys| ensures Le(keys[Parent(k)], keys[k]) {
      if Parent(k) == i { LeTransitive(keys[i], keys[j], keys[k]); }
    }
  }

  lemma SwapWithin<T>(s: seq<T>, i: nat, j: nat, n: nat)
    requires i < n <= |s| && j < n
    ensures Swapped(s, i, j)[..n] == Swapped(s[..n], i, j) && Swapped(s, i, j)[n..] == s[n..]
  {}

  lemma {:induction false} HeapMinimum(keys: seq<Bytes>, k: nat)
    requires HeapOrder(keys) && k < |keys|
    ensures Le(keys[0], keys[k])
    decreases k
  {
    if k == 0 {
      LessIrreflexive(keys[0]);
    } else {
      HeapMinimum(keys, Parent(k));
      LeTransitive(keys[0], keys[Parent(k)], keys[k]);
    }
  }

  lemma SwappedMultiset<T>(s: seq<T>, i: nat, j: nat)
    requires i < |s| && j < |s|
    ensures multiset(Swapped(s, i, j)) == multiset(s)
  {}

  // ---- the heap ----

  ghost function Keys(h: seq<RunReader>): (keys: seq<Bytes>)
    reads h
    ensures |keys| == |h|
  {
    seq(|h|, i requires 0 <= i < |h| reads h => h[i].cur)
  }

  class Heap {
    var h: seq<RunReader>

    constructor ()
      ensures h == []
    {
      h := [];
    }

    /** Swaps two slots. */
    method Swap(i: nat, j: nat)
      requires i < |h| && j < |h|
      modifies this
      ensures h == Swapped(old(h), i, j) && multiset(h) == multiset(old(h))
      ensures Keys(h) == Swapped(old(Keys(h)), i, j)
    {
      SwappedMultiset(h, i, j);
      h := h[i := h[j]][j := h[i]];
    }

    method Up(j0: nat)
      requires j0 < |h| && UpOrder(Keys(h), j0)
      modifies this
      ensures HeapOrder(Keys(h)) && multiset(h) == multiset(old(h))
    {
      var j: nat := j0;
      while true
        invariant j < |h| && UpOrder(Keys(h), j) && multiset(h) == multiset(old(h))
        decreases j
      {
        if j == 0 || !Less(h[j].cur, h[(j - 1) / 2].cur) { break; }
        var i := (j - 1) / 2;
        UpSwap(Keys(h), j);
        Swap(i, j);
        j := i;
      }
    }

    /** Sifts the root down among the first n slots. */
    method Down(n: nat)
      requires 0 < n <= |h| && DownOrder(Keys(h)[..n], 0)
      modifies this
      ensures |h| == |old(h)| && HeapOrder(Keys(h)[..n]) && h[n..] == old(h)[n..]
      ensures multiset(h) == multiset(old(h))
    {
      hide DownOrder, HeapOrder, Less, Swapped, Parent;
      var i: nat := 0;
      while true
        invariant i < n <= |h| == |old(h)| && DownOrder(Keys(h)[..n], i)
        invariant h[n..] == old(h)[n..] && multiset(h) == multiset(old(h))
        decreases n - i
      {
        var j := 2 * i + 1;
        if j >= n {
          ChildlessDone(Keys(h)[..n], i);
          break;
        }
        if j + 1 < n && Less(h[j + 1].cur, h[j].cur) {
          j := j + 1;
        }
        SmallestChild(Keys(h)[..n], i, j);
        if !Less(h[j].cur, h[i].cur) {
          SettledDone(Keys(h)[..n], i, j);
          break;
        }
        DownSwap(Keys(h)[..n], i, j);
        SwapWithin(Keys(h), i, j, n);
        SwapWithin(h, i, j, n);
        Swap(i, j);
        i := j;
      }
    }

    method Push(x: RunReader)
      requires HeapOrder(Keys(h))
      modifies this
      ensures HeapOrder(Keys(h)) && multiset(h) == multiset(old(h)) + multiset{x}
    {
      h := h + [x];
      Up(|h| - 1);
    }

    /** The root swapped to the last slot, and heap order restored before it. */
    method SwapOut()
      requires h != [] && HeapOrder(Keys(h))
      modifies this
      ensures |h| == |old(h)| && h[|h| - 1] == old(h)[0] && multiset(h) == multiset(old(h))
      ensures HeapOrder(Keys(h)[..|h| - 1])
    {
      var n := |h| - 1;
      RootReplaced(Keys(h), n);
      hide HeapOrder, DownOrder, Le;
      Swap(0, n);
      if n > 0 {
        ghost var swapped := h;
        Down(n);
        assert h[n] == h[n..][0] == swapped[n..][0];
      } else {
        EmptyHeap(Keys(h)[..n]);
      }
    }

    /** Removes a reader whose current key is least. */
    method Pop() returns (x: RunReader)
      requires h != [] && HeapOrder(Keys(h))
      modifies this
      ensures HeapOrder(Keys(h)) && multiset(old(h)) == multiset(h) + multiset{x}
      ensures forall y | y in old(h) :: Le(x.cur, y.cur)
    {
      RootLeast(h);
      hide HeapOrder, Le;
      SwapOut();
      var n := |h| - 1;
      x := h[n];
      LastOut(h, n);
      h := h[..n];
    }
  }

  lemma EmptyHeap(keys: seq<Bytes>)
    requires keys == []
    ensures HeapOrder(keys)
  {}

  /** With the root swapped out to slot n, only the new root can be out of order. */
  lemma RootReplaced(keys: seq<Bytes>, n: nat)
    requires HeapOrder(keys) && n + 1 == |keys|
    ensures n > 0 ==> DownOrder(Swapped(keys, 0, n)[..n], 0)
  {}

  lemma RootLeast(h: seq<RunReader>)
    requires h != [] && HeapOrder(Keys(h))
    ensures forall y | y in h :: Le(h[0].cur, y.cur)
  {
    forall y | y in h ensures Le(h[0].cur, y.cur) {
      var k :| 0 <= k < |h| && h[k] == y;
      HeapMinimum(Keys(h), k);
    }
  }

  lemma LastOut(h: seq<RunReader>, n: nat)
    requires n + 1 == |h|
    ensures Keys(h[..n]) == Keys(h)[..n] && multiset(h) == multiset(h[..n]) + multiset{h[n]}
  {
    assert h == h[..n] + [h[n]];
  }
}
