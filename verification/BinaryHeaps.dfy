/** Binary heaps kept in a sequence, as the standard heap functions keep them in a list. */
module BinaryHeaps {
  import opened Sorting

  predicate IsChild(i: int, j: int) {
    j == 2 * i + 1 || j == 2 * i + 2
  }

  /** Every parent from position `lo` on precedes its children. */
  ghost predicate HeapFrom<T(!new)>(h: seq<T>, lo: int, le: (T, T) -> bool) {
    forall i, j :: lo <= i < j < |h| && 0 <= i && IsChild(i, j) ==> le(h[i], h[j])
  }

  ghost predicate IsHeap<T(!new)>(h: seq<T>, le: (T, T) -> bool) {
    HeapFrom(h, 0, le)
  }

  lemma {:induction false} RootIsLeast<T(!new)>(h: seq<T>, j: nat, le: (T, T) -> bool)
    requires TotalPreorder(le) && IsHeap(h, le) && j < |h|
    ensures le(h[0], h[j])
    decreases j
  {
    if j > 0 {
      var p := (j - 1) / 2;
      assert IsChild(p, j);
      RootIsLeast(h, p, le);
      assert le(h[p], h[j]);
    }
  }

  function Swap<T>(s: seq<T>, i: nat, j: nat): (r: seq<T>)
    requires i < |s| && j < |s|
    ensures |r| == |s| && multiset(r) == multiset(s)
    ensures forall k :: 0 <= k < |s| ==> r[k] == if k == i then s[j] else if k == j then s[i] else s[k]
  {
    s[i := s[j]][j := s[i]]
  }

  /** A heap except that the entry at `i` may precede its parent. */
  ghost predicate RisingAt<T(!new)>(h: seq<T>, i: nat, le: (T, T) -> bool) {
    && (forall p, c :: 0 <= p < c < |h| && IsChild(p, c) && c != i ==> le(h[p], h[c]))
    && (forall p, c :: 0 <= p < i < c < |h| && IsChild(p, i) && IsChild(i, c) ==> le(h[p], h[c]))
  }

  /** Adds an item: append, then move it up past larger parents. */
  method HeapPush<T(!new)>(h0: seq<T>, x: T, le: (T, T) -> bool) returns (h: seq<T>)
    requires TotalPreorder(le) && IsHeap(h0, le)
    ensures IsHeap(h, le) && multiset(h) == multiset(h0) + multiset{x}
  {
    h := h0 + [x];
    var i := |h0|;
    while i > 0
      invariant 0 <= i < |h| && RisingAt(h, i, le)
      invariant multiset(h) == multiset(h0) + multiset{x}
    {
      var p := (i - 1) / 2;
      assert IsChild(p, i);
      if le(h[p], h[i]) {
        return;
      }
      RisesOne(h, p, i, le);
      h := Swap(h, i, p);
      i := p;
    }
  }

  lemma RisesOne<T(!new)>(h: seq<T>, p: nat, i: nat, le: (T, T) -> bool)
    requires TotalPreorder(le) && p < i < |h| && IsChild(p, i) && RisingAt(h, i, le) && !le(h[p], h[i])
    ensures RisingAt(Swap(h, i, p), p, le)
  {
  }

  /** A heap from `lo` on except that the entry at `i` may follow its children. */
  ghost predicate SinkingAt<T(!new)>(h: seq<T>, lo: nat, i: nat, le: (T, T) -> bool) {
    && (forall p, c :: lo <= p < c < |h| && IsChild(p, c) && p != i ==> le(h[p], h[c]))
    && (forall p, c :: lo <= p < i < c < |h| && IsChild(p, i) && IsChild(i, c) ==> le(h[p], h[c]))
  }

  lemma SinksOne<T(!new)>(h: seq<T>, lo: nat, i: nat, c: nat, le: (T, T) -> bool)
    requires TotalPreorder(le) && lo <= i < c < |h| && IsChild(i, c) && SinkingAt(h, lo, i, le)
    requires !le(h[i], h[c]) && forall k :: 0 <= k < |h| && IsChild(i, k) ==> le(h[c], h[k])
    ensures SinkingAt(Swap(h, i, c), lo, c, le)
  {
  }

  /** Moves the entry at `start` down until neither child is smaller. */
  method SiftDown<T(!new)>(h0: seq<T>, start: nat, le: (T, T) -> bool) returns (h: seq<T>)
    requires TotalPreorder(le) && start < |h0| && HeapFrom(h0, start + 1, le)
    ensures HeapFrom(h, start, le) && multiset(h) == multiset(h0) && |h| == |h0|
  {
    h := h0;
    var i := start;
    while 2 * i + 1 < |h|
      invariant start <= i < |h| && |h| == |h0| && multiset(h) == multiset(h0)
      invariant SinkingAt(h, start, i, le)
      decreases |h| - i
    {
      var c := 2 * i + 1;
      if c + 1 < |h| && !le(h[c], h[c + 1]) {
        c := c + 1;
      }
      assert forall k :: 0 <= k < |h| && IsChild(i, k) ==> k == 2 * i + 1 || k == 2 * i + 2;
      if le(h[i], h[c]) {
        return;
      }
      SinksOne(h, start, i, c, le);
      h := Swap(h, i, c);
      i := c;
    }
  }

  /** Removes the root. */
  method HeapPop<T(!new)>(h0: seq<T>, le: (T, T) -> bool) returns (x: T, h: seq<T>)
    requires TotalPreorder(le) && IsHeap(h0, le) && h0 != []
    ensures IsHeap(h, le) && x == h0[0] && multiset(h) == multiset(h0) - multiset{x}
  {
    var last := h0[|h0| - 1];
    h := h0[..|h0| - 1];
    assert h0 == h + [last];
    x := last;
    if h != [] {
      x := h[0];
      assert h == [x] + h[1..];
      h := [last] + h[1..];
      h := SiftDown(h, 0, le);
    }
  }

  /** Re-establishes the heap over an arbitrary arrangement, bottom up. */
  method Heapify<T(!new)>(h0: seq<T>, le: (T, T) -> bool) returns (h: seq<T>)
    requires TotalPreorder(le)
    ensures IsHeap(h, le) && multiset(h) == multiset(h0)
  {
    h := h0;
    var i := |h| / 2;
    while i > 0
      invariant 0 <= i <= |h| / 2 && |h| == |h0|
      invariant HeapFrom(h, i, le) && multiset(h) == multiset(h0)
    {
      i := i - 1;
      h := SiftDown(h, i, le);
    }
  }
}
