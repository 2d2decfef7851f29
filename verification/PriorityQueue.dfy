/** A priority queue on a binary heap, with priorities that can be changed while items wait. */
module PriorityQueues {
  import opened Basics
  import opened Sorting
  import opened BinaryHeaps

  datatype Priority = Critical | High | Normal | Bulk

  function Level(p: Priority): nat {
    match p
    case Critical => 0
    case High => 1
    case Normal => 2
    case Bulk => 3
  }

  datatype Entry<T> = Entry(priority: Priority, timestamp: real, sequence: nat, item: T)

  /** Ordered by priority, then time, then sequence number; the item takes no part. */
  predicate Leq<T>(a: Entry<T>, b: Entry<T>) {
    Level(a.priority) < Level(b.priority) ||
    (a.priority == b.priority
     && (a.timestamp < b.timestamp || (a.timestamp == b.timestamp && a.sequence <= b.sequence)))
  }

  lemma LeqIsTotal<T(!new)>()
    ensures TotalPreorder(Leq<T>)
  {
  }

  /** The heap order of the entries. */
  ghost predicate Heaped<T(!new)>(h: seq<Entry<T>>) {
    IsHeap(h, Leq)
  }

  method PushEntry<T(!new)>(h0: seq<Entry<T>>, e: Entry<T>) returns (h: seq<Entry<T>>)
    requires Heaped(h0)
    ensures Heaped(h) && multiset(h) == multiset(h0) + multiset{e}
  {
    LeqIsTotal<T>();
    h := HeapPush(h0, e, Leq);
  }

  method PopEntry<T(!new)>(h0: seq<Entry<T>>) returns (x: Entry<T>, h: seq<Entry<T>>)
    requires Heaped(h0) && h0 != []
    ensures Heaped(h) && x == h0[0] && multiset(h) == multiset(h0) - multiset{x}
  {
    LeqIsTotal<T>();
    x, h := HeapPop(h0, Leq);
  }

  method HeapifyEntries<T(!new)>(h0: seq<Entry<T>>) returns (h: seq<Entry<T>>)
    ensures Heaped(h) && multiset(h) == multiset(h0)
  {
    LeqIsTotal<T>();
    h := Heapify(h0, Leq);
  }

  // ---- The queue ----

  /** Entries as they stand in arrival order. */
  ghost predicate InArrivalOrder<T>(log: seq<Entry<T>>) {
    forall i, j :: 0 <= i < j < |log| ==> log[i].sequence < log[j].sequence && log[i].timestamp <= log[j].timestamp
  }

  /** No entry is newer than the last sequence number and the last reading of the clock. */
  ghost predicate NotBeyond<T>(log: seq<Entry<T>>, last: nat, clock: real) {
    forall i :: 0 <= i < |log| ==> log[i].sequence <= last && log[i].timestamp <= clock
  }

  function Reprioritised<T>(e: Entry<T>, matches: T -> bool, p: Priority): Entry<T> {
    if matches(e.item) then e.(priority := p) else e
  }

  function Adjusted<T>(s: seq<Entry<T>>, matches: T -> bool, p: Priority): (r: seq<Entry<T>>)
    ensures |r| == |s| && forall i :: 0 <= i < |s| ==> r[i] == Reprioritised(s[i], matches, p)
  {
    seq(|s|, i requires 0 <= i < |s| => Reprioritised(s[i], matches, p))
  }

  function CountMatches<T>(s: seq<Entry<T>>, matches: T -> bool): nat {
    if s == [] then 0 else CountMatches(s[..|s| - 1], matches) + if matches(s[|s| - 1].item) then 1 else 0
  }

  function CountLevel<T>(s: seq<Entry<T>>, p: Priority): nat {
    if s == [] then 0 else CountLevel(s[..|s| - 1], p) + if s[|s| - 1].priority == p then 1 else 0
  }

  /** Each entry is counted under exactly one level. */
  lemma {:induction false} LevelsPartition<T>(s: seq<Entry<T>>)
    ensures CountLevel(s, Critical) + CountLevel(s, High) + CountLevel(s, Normal) + CountLevel(s, Bulk) == |s|
  {
    if s != [] {
      LevelsPartition(s[..|s| - 1]);
    }
  }

  /** Position of the earliest entry of the best current priority. */
  function BestAt<T>(log: seq<Entry<T>>): (k: nat)
    requires log != []
    ensures k < |log|
    ensures forall j :: 0 <= j < k ==> Level(log[k].priority) < Level(log[j].priority)
    ensures forall j :: k <= j < |log| ==> Level(log[k].priority) <= Level(log[j].priority)
  {
    if |log| == 1 then 0
    else
      var b, n := BestAt(log[..|log| - 1]), |log| - 1;
      assert log[..n][b] == log[b];
      assert forall j :: 0 <= j < n ==> log[..n][j] == log[j];
      if Level(log[n].priority) < Level(log[b].priority) then n else b
  }

  /** Taking from `log` returns the item of its earliest best entry and leaves the rest in order;
      an empty log gives nothing. */
  ghost predicate Removal<T>(log: seq<Entry<T>>, r: Option<T>, rest: seq<Entry<T>>) {
    if log == [] then r == None && rest == []
    else r == Some(log[BestAt(log)].item) && rest == RemoveAt(log, BestAt(log))
  }

  /** Entry `k` is next: no critical entry waits unless it is one, then no high one, then no normal
      one, and it is the first to have come of its level. */
  ghost predicate IsNext<T>(log: seq<Entry<T>>, k: int) {
    && 0 <= k < |log|
    && (forall j :: 0 <= j < k ==> log[j].priority != log[k].priority)
    && (log[k].priority != Critical ==> forall e :: e in log ==> e.priority != Critical)
    && (log[k].priority == Normal || log[k].priority == Bulk ==> forall e :: e in log ==> e.priority != High)
    && (log[k].priority == Bulk ==> forall e :: e in log ==> e.priority != Normal)
  }

  lemma BestIsNext<T>(log: seq<Entry<T>>)
    requires log != []
    ensures IsNext(log, BestAt(log))
  {
    var k := BestAt(log);
    forall e | e in log ensures Level(log[k].priority) <= Level(e.priority) {
      var j :| 0 <= j < |log| && log[j] == e;
    }
  }

  /** What taking means: the item of the next entry, and the rest in order. */
  ghost predicate TakesNext<T>(log: seq<Entry<T>>, r: Option<T>, rest: seq<Entry<T>>) {
    if log == [] then r == None && rest == []
    else exists k :: IsNext(log, k) && r == Some(log[k].item) && rest == log[..k] + log[k + 1..]
  }

  lemma RemovalTakesNext<T>(log: seq<Entry<T>>, r: Option<T>, rest: seq<Entry<T>>)
    requires Removal(log, r, rest)
    ensures TakesNext(log, r, rest)
  {
    if log != [] {
      BestIsNext(log);
    }
  }

  /** In arrival order the least entry is the earliest of the best priority. */
  lemma BestIsLeastEntry<T>(log: seq<Entry<T>>, x: Entry<T>)
    requires log != [] && InArrivalOrder(log) && x in log
    requires forall e :: e in log ==> Leq(x, e)
    ensures x == log[BestAt(log)]
  {
    var k := BestAt(log);
    var i :| 0 <= i < |log| && log[i] == x;
    assert log[k] in log;
    assert Leq(log[i], log[k]);
  }

  lemma RemoveFromMultiset<T>(log: seq<T>, k: nat)
    requires k < |log|
    ensures multiset(RemoveAt(log, k)) == multiset(log) - multiset{log[k]}
  {
    assert log == log[..k] + [log[k]] + log[k + 1..];
  }

  lemma RemovalKeepsArrival<T>(log: seq<Entry<T>>, k: nat, last: nat, clock: real)
    requires InArrivalOrder(log) && NotBeyond(log, last, clock) && k < |log|
    ensures InArrivalOrder(RemoveAt(log, k)) && NotBeyond(RemoveAt(log, k), last, clock)
  {
    var r := RemoveAt(log, k);
    assert forall i :: 0 <= i < |r| ==> r[i] == log[if i < k then i else i + 1];
    forall i, j | 0 <= i < j < |r| ensures r[i].sequence < r[j].sequence && r[i].timestamp <= r[j].timestamp {
      assert r[i] == log[if i < k then i else i + 1] && r[j] == log[if j < k then j else j + 1];
    }
  }

  /** The heap's root is the earliest entry of the best priority. */
  lemma RootIsBest<T(!new)>(heap: seq<Entry<T>>, log: seq<Entry<T>>)
    requires Heaped(heap) && multiset(heap) == multiset(log) && InArrivalOrder(log) && heap != []
    ensures log != [] && heap[0] == log[BestAt(log)]
  {
    LeqIsTotal<T>();
    PermutationElems(heap, log);
    forall e | e in log ensures Leq(heap[0], e) {
      var j :| 0 <= j < |heap| && heap[j] == e;
      RootIsLeast(heap, j, Leq);
    }
    assert heap[0] in heap;
    BestIsLeastEntry(log, heap[0]);
  }

  lemma PopIsRemoval<T(!new)>(heap: seq<Entry<T>>, log: seq<Entry<T>>, rest: seq<Entry<T>>, last: nat, clock: real)
    requires Heaped(heap) && multiset(heap) == multiset(log) && heap != []
    requires InArrivalOrder(log) && NotBeyond(log, last, clock)
    requires multiset(rest) == multiset(heap) - multiset{heap[0]}
    ensures log != [] && heap[0] == log[BestAt(log)]
    ensures multiset(rest) == multiset(RemoveAt(log, BestAt(log)))
    ensures InArrivalOrder(RemoveAt(log, BestAt(log))) && NotBeyond(RemoveAt(log, BestAt(log)), last, clock)
    ensures Removal(log, Some(heap[0].item), RemoveAt(log, BestAt(log)))
    ensures TakesNext(log, Some(heap[0].item), RemoveAt(log, BestAt(log)))
  {
    RootIsBest(heap, log);
    RemovalTakesNext(log, Some(heap[0].item), RemoveAt(log, BestAt(log)));
    RemoveFromMultiset(log, BestAt(log));
    RemovalKeepsArrival(log, BestAt(log), last, clock);
  }

  /** Where the last entry of a permutation sits in the other one. */
  lemma LastOf<T>(a: seq<Entry<T>>, b: seq<Entry<T>>) returns (k: nat)
    requires a != [] && multiset(a) == multiset(b)
    ensures k < |b| && b[k] == a[|a| - 1]
    ensures multiset(RemoveAt(a, |a| - 1)) == multiset(RemoveAt(b, k))
  {
    PermutationElems(a, b);
    assert a[|a| - 1] in a;
    k :| 0 <= k < |b| && b[k] == a[|a| - 1];
    RemoveFromMultiset(a, |a| - 1);
    RemoveFromMultiset(b, k);
  }

  lemma {:induction false} AdjustedIsPermutation<T>(a: seq<Entry<T>>, b: seq<Entry<T>>, matches: T -> bool, p: Priority)
    requires multiset(a) == multiset(b)
    ensures multiset(Adjusted(a, matches, p)) == multiset(Adjusted(b, matches, p))
    decreases |a|
  {
    PermutationLength(a, b);
    if a != [] {
      var k := LastOf(a, b);
      AdjustedIsPermutation(RemoveAt(a, |a| - 1), RemoveAt(b, k), matches, p);
      AdjustedRemove(a, |a| - 1, matches, p);
      AdjustedRemove(b, k, matches, p);
    }
  }

  lemma {:induction false} CountsOfPermutation<T>(a: seq<Entry<T>>, b: seq<Entry<T>>, matches: T -> bool)
    requires multiset(a) == multiset(b)
    ensures CountMatches(a, matches) == CountMatches(b, matches)
    ensures forall l :: CountLevel(a, l) == CountLevel(b, l)
    decreases |a|
  {
    PermutationLength(a, b);
    if a != [] {
      var k := LastOf(a, b);
      CountsOfPermutation(RemoveAt(a, |a| - 1), RemoveAt(b, k), matches);
      CountRemove(a, |a| - 1, matches);
      CountRemove(b, k, matches);
    }
  }

  lemma AdjustedMultiset<T>(a: seq<Entry<T>>, b: seq<Entry<T>>, matches: T -> bool, p: Priority)
    requires multiset(a) == multiset(b)
    ensures multiset(Adjusted(a, matches, p)) == multiset(Adjusted(b, matches, p))
    ensures CountMatches(a, matches) == CountMatches(b, matches)
    ensures forall l :: CountLevel(a, l) == CountLevel(b, l)
  {
    AdjustedIsPermutation(a, b, matches, p);
    CountsOfPermutation(a, b, matches);
  }

  lemma AdjustedRemove<T>(s: seq<Entry<T>>, k: nat, matches: T -> bool, p: Priority)
    requires k < |s|
    ensures multiset(Adjusted(s, matches, p)) ==
            multiset(Adjusted(RemoveAt(s, k), matches, p)) + multiset{Reprioritised(s[k], matches, p)}
  {
    var t := Adjusted(s, matches, p);
    RemoveFromMultiset(t, k);
    assert t[k] in t;
    assert Adjusted(RemoveAt(s, k), matches, p) == RemoveAt(t, k);
  }

  /** Removing an earlier element leaves the last one in place. */
  lemma RemoveBeforeLast<T>(s: seq<T>, k: nat)
    requires k < |s| - 1
    ensures
      var r, n := RemoveAt(s, k), |s| - 1;
      |r| == n && r[..n - 1] == RemoveAt(s[..n], k) && r[n - 1] == s[n]
  {
    var n := |s| - 1;
    assert s[..n][..k] == s[..k] && s[..n][k + 1..] == s[k + 1..n];
    assert s[k + 1..] == s[k + 1..n] + [s[n]];
    assert RemoveAt(s, k) == RemoveAt(s[..n], k) + [s[n]];
  }

  lemma {:induction false} CountMatchesRemove<T>(s: seq<Entry<T>>, k: nat, matches: T -> bool)
    requires k < |s|
    ensures CountMatches(s, matches) == CountMatches(RemoveAt(s, k), matches) + if matches(s[k].item) then 1 else 0
    decreases |s|
  {
    var n := |s| - 1;
    if k < n {
      CountMatchesRemove(s[..n], k, matches);
      RemoveBeforeLast(s, k);
    } else {
      assert RemoveAt(s, k) == s[..n];
    }
  }

  lemma {:induction false} CountLevelRemove<T>(s: seq<Entry<T>>, k: nat, l: Priority)
    requires k < |s|
    ensures CountLevel(s, l) == CountLevel(RemoveAt(s, k), l) + if s[k].priority == l then 1 else 0
    decreases |s|
  {
    var n := |s| - 1;
    if k < n {
      CountLevelRemove(s[..n], k, l);
      RemoveBeforeLast(s, k);
    } else {
      assert RemoveAt(s, k) == s[..n];
    }
  }

  lemma CountRemove<T>(s: seq<Entry<T>>, k: nat, matches: T -> bool)
    requires k < |s|
    ensures CountMatches(s, matches) == CountMatches(RemoveAt(s, k), matches) + if matches(s[k].item) then 1 else 0
    ensures forall l :: CountLevel(s, l) == CountLevel(RemoveAt(s, k), l) + if s[k].priority == l then 1 else 0
  {
    CountMatchesRemove(s, k, matches);
    forall l ensures CountLevel(s, l) == CountLevel(RemoveAt(s, k), l) + if s[k].priority == l then 1 else 0 {
      CountLevelRemove(s, k, l);
    }
  }

  class PriorityQueue<T(==,!new)> {
    var heap: seq<Entry<T>>
    var lastSequence: nat
    ghost var log: seq<Entry<T>>
    ghost var clock: real

    constructor (ghost now: real)
      ensures Valid() && log == [] && clock == now
    {
      heap, lastSequence, log, clock := [], 0, [], now;
    }

    /** The heap holds the waiting entries, which `log` lists in the order they were put. */
    ghost predicate Valid()
      reads this
    {
      && Heaped(heap) && multiset(heap) == multiset(log)
      && InArrivalOrder(log) && NotBeyond(log, lastSequence, clock)
    }

    /** The clock is monotonic, so `now` is never before the previous `now`. */
    method Put(item: T, priority: Priority, now: real)
      requires Valid() && clock <= now
      modifies this
      ensures Valid() && clock == now
      ensures exists s :: log == old(log) + [Entry(priority, now, s, item)]
    {
      lastSequence := lastSequence + 1;
      var e := Entry(priority, now, lastSequence, item);
      heap := PushEntry(heap, e);
      log := log + [e];
      clock := now;
    }

    /** The earliest entry of the best current priority leaves; all others stay in order. */
    method Take() returns (r: Option<T>)
      requires Valid()
      modifies `heap, `log
      ensures Valid()
      ensures Removal(old(log), r, log)
      ensures TakesNext(old(log), r, log)
    {
      r := None;
      PermutationLength(heap, log);
      if heap != [] {
        var x, rest := PopEntry(heap);
        PopIsRemoval(heap, log, rest, lastSequence, clock);
        heap := rest;
        log := RemoveAt(log, BestAt(log));
        r := Some(x.item);
      }
    }

    method Peek() returns (r: Option<(T, Priority)>)
      requires Valid()
      ensures log == [] ==> r == None
      ensures log != [] ==> r == Some((log[BestAt(log)].item, log[BestAt(log)].priority))
      ensures log != [] ==> exists k :: IsNext(log, k) && r == Some((log[k].item, log[k].priority))
    {
      if log != [] {
        BestIsNext(log);
      }
      if heap == [] {
        assert |multiset(log)| == 0;
        return None;
      }
      RootIsBest(heap, log);
      return Some((heap[0].item, heap[0].priority));
    }

    /** Matching items get the new priority and keep their place in the arrival order. */
    method AdjustPriority(matches: T -> bool, priority: Priority) returns (adjusted: nat)
      requires Valid()
      modifies `heap, `log
      ensures Valid()
      ensures log == Adjusted(old(log), matches, priority)
      ensures |log| == |old(log)|
      ensures forall i :: 0 <= i < |log| ==>
                && log[i].item == old(log)[i].item && log[i].timestamp == old(log)[i].timestamp
                && log[i].sequence == old(log)[i].sequence
                && log[i].priority == if matches(log[i].item) then priority else old(log)[i].priority
      ensures adjusted == CountMatches(old(log), matches)
    {
      var newHeap;
      newHeap, adjusted := Rebuild(matches, priority);
      AdjustedMultiset(heap, log, matches, priority);
      heap := HeapifyEntries(newHeap);
      AdjustedKeepsArrival(log, matches, priority, lastSequence, clock);
      log := Adjusted(log, matches, priority);
    }

    /** Items waiting at each level; the four counts add up to the length. */
    method CountByPriority() returns (counts: map<Priority, nat>)
      requires Valid()
      ensures counts.Keys == {Critical, High, Normal, Bulk}
      ensures forall p :: p in counts ==> counts[p] == CountLevel(log, p)
      ensures counts[Critical] + counts[High] + counts[Normal] + counts[Bulk] == |log|
    {
      counts := map[Critical := 0, High := 0, Normal := 0, Bulk := 0];
      for i := 0 to |heap|
        invariant counts.Keys == {Critical, High, Normal, Bulk}
        invariant forall p :: p in counts ==> counts[p] == CountLevel(heap[..i], p)
      {
        assert heap[..i + 1][..i] == heap[..i];
        var p := heap[i].priority;
        assert p.Critical? || p.High? || p.Normal? || p.Bulk?;
        counts := counts[p := counts[p] + 1];
      }
      assert heap[..|heap|] == heap;
      AdjustedMultiset(heap, log, (x: T) => true, Normal);
      LevelsPartition(log);
    }

    /** The rebuild loop: matching entries are copied with the new priority. */
    method Rebuild(matches: T -> bool, priority: Priority) returns (newHeap: seq<Entry<T>>, adjusted: nat)
      ensures newHeap == Adjusted(heap, matches, priority)
      ensures adjusted == CountMatches(heap, matches)
    {
      adjusted := 0;
      newHeap := [];
      for i := 0 to |heap|
        invariant newHeap == Adjusted(heap[..i], matches, priority)
        invariant adjusted == CountMatches(heap[..i], matches)
      {
        var entry := heap[i];
        assert heap[..i + 1][..i] == heap[..i];
        if matches(entry.item) {
          newHeap := newHeap + [Entry(priority, entry.timestamp, entry.sequence, entry.item)];
          adjusted := adjusted + 1;
        } else {
          newHeap := newHeap + [entry];
        }
      }
      assert heap[..|heap|] == heap;
    }
  }

  lemma AdjustedKeepsArrival<T>(log: seq<Entry<T>>, matches: T -> bool, p: Priority, last: nat, clock: real)
    requires InArrivalOrder(log) && NotBeyond(log, last, clock)
    ensures InArrivalOrder(Adjusted(log, matches, p)) && NotBeyond(Adjusted(log, matches, p), last, clock)
  {
  }

  // ---- Emptying the queue ----

  /** The entries in the order repeated `get` calls return them. */
  ghost function DrainOrder<T>(log: seq<Entry<T>>): seq<Entry<T>>
    decreases |log|
  {
    if log == [] then [] else [log[BestAt(log)]] + DrainOrder(RemoveAt(log, BestAt(log)))
  }

  predicate ByPriority<T>(a: Entry<T>, b: Entry<T>) {
    Level(a.priority) <= Level(b.priority)
  }

  lemma FirstIsBest<T(!new)>(log: seq<Entry<T>>)
    requires log != [] && BestAt(log) == 0
    ensures SortBy(log, ByPriority) == [log[0]] + SortBy(log[1..], ByPriority)
  {
    var s := SortBy(log[1..], ByPriority);
    SortIsPermutation(log[1..], ByPriority);
    PermutationElems(s, log[1..]);
    if s != [] {
      assert s[0] in log[1..];
      var j :| 0 <= j < |log[1..]| && log[1..][j] == s[0];
      assert ByPriority(log[0], log[j + 1]);
    }
  }

  lemma BestOfTail<T>(log: seq<Entry<T>>)
    requires |log| > 1 && BestAt(log) > 0
    ensures BestAt(log[1..]) == BestAt(log) - 1
  {
    var k, b := BestAt(log), BestAt(log[1..]);
    assert log[1..][k - 1] == log[k] && log[1..][b] == log[b + 1];
  }

  lemma LaterIsBest<T(!new)>(log: seq<Entry<T>>)
    requires |log| > 1 && BestAt(log) > 0
    requires SortBy(log[1..], ByPriority) ==
             [log[BestAt(log)]] + SortBy(RemoveAt(log[1..], BestAt(log) - 1), ByPriority)
    ensures SortBy(log, ByPriority) == [log[BestAt(log)]] + SortBy(RemoveAt(log, BestAt(log)), ByPriority)
  {
    var k := BestAt(log);
    var less, tail := RemoveAt(log, k), SortBy(log[1..], ByPriority);
    assert less[0] == log[0] && less[1..] == RemoveAt(log[1..], k - 1);
    assert tail[0] == log[k] && !ByPriority(log[0], tail[0]);
    assert tail[1..] == SortBy(less[1..], ByPriority);
  }

  /** Sorting a log stably by priority starts with its earliest best entry. */
  lemma {:induction false} SortStartsWithBest<T(!new)>(log: seq<Entry<T>>)
    requires log != []
    ensures SortBy(log, ByPriority) == [log[BestAt(log)]] + SortBy(RemoveAt(log, BestAt(log)), ByPriority)
    decreases |log|
  {
    if BestAt(log) == 0 {
      FirstIsBest(log);
      assert RemoveAt(log, 0) == log[1..];
    } else {
      BestOfTail(log);
      SortStartsWithBest(log[1..]);
      LaterIsBest(log);
    }
  }

  /** Repeated `get` returns the waiting items sorted by their current priority and, within one
      priority, in the order they were put. */
  lemma {:induction false} DrainIsStableSort<T(!new)>(log: seq<Entry<T>>)
    ensures DrainOrder(log) == SortBy(log, ByPriority)
    decreases |log|
  {
    if log != [] {
      SortStartsWithBest(log);
      DrainIsStableSort(RemoveAt(log, BestAt(log)));
    }
  }
  /** The entries of one level, in order. */
  ghost function OfLevel<T>(log: seq<Entry<T>>, p: Priority): seq<Entry<T>> {
    if log == [] then [] else (if log[0].priority == p then [log[0]] else []) + OfLevel(log[1..], p)
  }

  lemma {:induction false} OfLevelConcat<T>(a: seq<Entry<T>>, b: seq<Entry<T>>, p: Priority)
    ensures OfLevel(a + b, p) == OfLevel(a, p) + OfLevel(b, p)
  {
    if a == [] {
      assert a + b == b;
    } else {
      assert (a + b)[1..] == a[1..] + b;
      OfLevelConcat(a[1..], b, p);
      var first := if a[0].priority == p then [a[0]] else [];
      assert OfLevel(a + b, p) == first + OfLevel(a[1..] + b, p);
      assert first + (OfLevel(a[1..], p) + OfLevel(b, p)) == (first + OfLevel(a[1..], p)) + OfLevel(b, p);
    }
  }

  lemma {:induction false} NoneOfLevel<T>(log: seq<Entry<T>>, p: Priority)
    requires forall e :: e in log ==> e.priority != p
    ensures OfLevel(log, p) == []
  {
    if log != [] {
      assert log[0] in log;
      NoneOfLevel(log[1..], p);
    }
  }

  /** Taking an entry out: its level loses it from the front, the others lose nothing. */
  lemma OfLevelRemove<T>(log: seq<Entry<T>>, k: nat, p: Priority)
    requires k < |log| && forall j :: 0 <= j < k ==> log[j].priority != log[k].priority
    ensures OfLevel(log, p) == (if log[k].priority == p then [log[k]] else []) + OfLevel(RemoveAt(log, k), p)
  {
    var a, e, b := log[..k], log[k], log[k + 1..];
    assert log == a + ([e] + b);
    OfLevelConcat(a, [e] + b, p);
    OfLevelConcat([e], b, p);
    assert [e][1..] == [];
    OfLevelConcat(a, b, p);
    if e.priority == p {
      NoneOfLevel(a, p);
    }
  }

  ghost function LevelByLevel<T>(log: seq<Entry<T>>): seq<Entry<T>> {
    OfLevel(log, Critical) + OfLevel(log, High) + OfLevel(log, Normal) + OfLevel(log, Bulk)
  }

  /** The next entry comes first level by level. */
  lemma NextComesFirst<T>(log: seq<Entry<T>>, k: nat)
    requires IsNext(log, k)
    ensures LevelByLevel(log) == [log[k]] + LevelByLevel(RemoveAt(log, k))
  {
    OfLevelRemove(log, k, Critical);
    OfLevelRemove(log, k, High);
    OfLevelRemove(log, k, Normal);
    OfLevelRemove(log, k, Bulk);
    match log[k].priority
    case Critical =>
    case High => NoneOfLevel(log, Critical);
    case Normal =>
      NoneOfLevel(log, Critical);
      NoneOfLevel(log, High);
    case Bulk =>
      NoneOfLevel(log, Critical);
      NoneOfLevel(log, High);
      NoneOfLevel(log, Normal);
  }

  /** Emptying the queue returns all critical items, then all high, normal and bulk ones, each level
      in the order its items came. */
  lemma {:induction false} DrainsLevelByLevel<T>(log: seq<Entry<T>>)
    ensures DrainOrder(log) ==
            OfLevel(log, Critical) + OfLevel(log, High) + OfLevel(log, Normal) + OfLevel(log, Bulk)
    decreases |log|
  {
    if log != [] {
      BestIsNext(log);
      NextComesFirst(log, BestAt(log));
      DrainsLevelByLevel(RemoveAt(log, BestAt(log)));
      assert LevelByLevel(log) == DrainOrder(log);
    }
  }

  /** The counts are the sizes of the levels. */
  lemma {:induction false} CountIsLevelSize<T>(log: seq<Entry<T>>, p: Priority)
    ensures CountLevel(log, p) == |OfLevel(log, p)|
  {
    if log != [] {
      var n := |log| - 1;
      CountIsLevelSize(log[..n], p);
      OfLevelConcat(log[..n], [log[n]], p);
      assert log == log[..n] + [log[n]] && [log[n]][1..] == [];
    }
  }

  /** The number reported by an adjustment is the number of matching places. */
  lemma {:induction false} CountMatchesIsExact<T>(log: seq<Entry<T>>, matches: T -> bool)
    ensures CountMatches(log, matches) == |set i | 0 <= i < |log| && matches(log[i].item)|
  {
    var places := set i | 0 <= i < |log| && matches(log[i].item);
    if log == [] {
      assert places == {};
    } else {
      var n := |log| - 1;
      CountMatchesIsExact(log[..n], matches);
      var before := set i | 0 <= i < |log[..n]| && matches(log[..n][i].item);
      assert places == before + if matches(log[n].item) then {n} else {};
    }
  }
}
