/** Finite directed graphs of "waits for" edges, and what an explicit-stack search finds in them. */
module Graphs {
  import opened Basics

  type Graph = map<Id, set<Id>>

  function Succ(g: Graph, x: Id): set<Id> {
    if x in g then g[x] else {}
  }

  function Targets(g: Graph): set<Id> {
    set x, y | x in g && y in g[x] :: y
  }

  function Nodes(g: Graph): set<Id> {
    g.Keys + Targets(g)
  }

  /** `y` is reached from `x` by exactly `n` edges. */
  ghost predicate ReachIn(g: Graph, x: Id, y: Id, n: nat)
    decreases n
  {
    if n == 0 then x == y
    else exists z :: z in Succ(g, x) && ReachIn(g, z, y, n - 1)
  }

  ghost predicate Reaches(g: Graph, x: Id, y: Id) {
    exists n: nat :: ReachIn(g, x, y, n)
  }

  ghost predicate Acyclic(g: Graph) {
    forall x, n: nat :: n > 0 ==> !ReachIn(g, x, x, n)
  }

  /** The graphs differ at most in the edges leaving `j`. */
  ghost predicate AgreeOff(g: Graph, h: Graph, j: Id) {
    forall x :: x != j ==> Succ(g, x) == Succ(h, x)
  }

  lemma {:induction false} ReachTrans(g: Graph, x: Id, y: Id, z: Id, m: nat, n: nat)
    requires ReachIn(g, x, y, m) && ReachIn(g, y, z, n)
    ensures ReachIn(g, x, z, m + n)
    decreases m
  {
    if m > 0 {
      var w :| w in Succ(g, x) && ReachIn(g, w, y, m - 1);
      ReachTrans(g, w, y, z, m - 1, n);
    }
  }

  lemma ReachStep(g: Graph, x: Id, y: Id, z: Id)
    requires Reaches(g, x, y) && z in Succ(g, y)
    ensures Reaches(g, x, z)
  {
    var m: nat :| ReachIn(g, x, y, m);
    assert ReachIn(g, z, z, 0);
    assert ReachIn(g, y, z, 1);
    ReachTrans(g, x, y, z, m, 1);
  }

  lemma {:induction false} ReachMonotone(g: Graph, h: Graph, x: Id, y: Id, n: nat)
    requires forall v :: Succ(g, v) <= Succ(h, v)
    requires ReachIn(g, x, y, n)
    ensures ReachIn(h, x, y, n)
    decreases n
  {
    if n > 0 {
      var z :| z in Succ(g, x) && ReachIn(g, z, y, n - 1);
      ReachMonotone(g, h, z, y, n - 1);
      assert z in Succ(h, x);
    }
  }

  lemma SubgraphAcyclic(g: Graph, h: Graph)
    requires forall v :: Succ(g, v) <= Succ(h, v)
    requires Acyclic(h)
    ensures Acyclic(g)
  {
    forall x, n: nat | n > 0 && ReachIn(g, x, x, n) ensures false {
      ReachMonotone(g, h, x, x, n);
    }
  }

  lemma {:induction false} ClosedSetContains(g: Graph, s: set<Id>, x: Id, y: Id, n: nat)
    requires forall v :: v in s ==> Succ(g, v) <= s
    requires x in s && ReachIn(g, x, y, n)
    ensures y in s
    decreases n
  {
    if n > 0 {
      var z :| z in Succ(g, x) && ReachIn(g, z, y, n - 1);
      ClosedSetContains(g, s, z, y, n - 1);
    }
  }

  /** A walk that ends in `j` needs none of `j`'s own edges. */
  lemma {:induction false} ReachTargetWithoutItsEdges(g: Graph, h: Graph, x: Id, j: Id, n: nat)
    requires AgreeOff(g, h, j) && ReachIn(g, x, j, n)
    ensures Reaches(h, x, j)
    decreases n
  {
    if x == j {
      assert ReachIn(h, x, j, 0);
    } else {
      var z :| z in Succ(g, x) && ReachIn(g, z, j, n - 1);
      ReachTargetWithoutItsEdges(g, h, z, j, n - 1);
      var m: nat :| ReachIn(h, z, j, m);
      assert z in Succ(h, x);
      assert ReachIn(h, x, j, m + 1);
    }
  }

  /** A walk of `h` either lives in `g` already or leaves `j` somewhere on the way. */
  lemma {:induction false} WalkSplitsAt(g: Graph, h: Graph, x: Id, y: Id, j: Id, n: nat) returns (k: nat)
    requires AgreeOff(g, h, j) && ReachIn(h, x, y, n)
    ensures k <= n
    ensures k == n ==> ReachIn(g, x, y, n)
    ensures k < n ==> ReachIn(h, x, j, k) && ReachIn(h, j, y, n - k)
    decreases n
  {
    if n == 0 {
      k := 0;
    } else if x == j {
      k := 0;
      assert ReachIn(h, x, j, 0);
    } else {
      var z :| z in Succ(h, x) && ReachIn(h, z, y, n - 1);
      var k' := WalkSplitsAt(g, h, z, y, j, n - 1);
      k := k' + 1;
      assert z in Succ(g, x);
    }
  }

  /** Changing only `j`'s edges in an acyclic graph closes a cycle exactly when one of the
      new successors already reaches `j`. */
  lemma NewEdgesCloseCycleIff(g: Graph, h: Graph, j: Id)
    requires Acyclic(g) && AgreeOff(g, h, j)
    ensures Acyclic(h) <==> !exists d :: d in Succ(h, j) && Reaches(g, d, j)
  {
    if d :| d in Succ(h, j) && Reaches(g, d, j) {
      var n: nat :| ReachIn(g, d, j, n);
      ReachTargetWithoutItsEdges(g, h, d, j, n);
      var m: nat :| ReachIn(h, d, j, m);
      assert ReachIn(h, j, j, m + 1);
    }
    if x, n: nat :| n > 0 && ReachIn(h, x, x, n) {
      var k := WalkSplitsAt(g, h, x, x, j, n);
      assert k < n;
      ReachTrans(h, j, x, j, n - k, k);
      var d :| d in Succ(h, j) && ReachIn(h, d, j, n - 1);
      ReachTargetWithoutItsEdges(h, g, d, j, n - 1);
    }
  }

  /** In an acyclic graph every nonempty set of nodes has a member that waits for no other member. */
  lemma {:induction false} MinimalMember(g: Graph, b: set<Id>) returns (m: Id)
    requires Acyclic(g) && b != {}
    ensures m in b && Succ(g, m) !! b
    decreases |b|
  {
    var x :| x in b;
    if Succ(g, x) !! b {
      m := x;
    } else {
      var s :| s in Succ(g, x) && s in b;
      ghost var below := set y | y in b && y != x && Reaches(g, x, y);
      assert ReachIn(g, x, x, 0);
      ReachStep(g, x, x, s);
      assert ReachIn(g, s, s, 0);
      assert s == x ==> ReachIn(g, x, x, 1);
      assert s in below;
      SubsetCardinality(below, b);
      m := MinimalMember(g, below);
      if y :| y in Succ(g, m) && y in b {
        ReachStep(g, x, m, y);
        assert y == x;
        var n: nat :| ReachIn(g, x, m, n);
        assert ReachIn(g, x, x, 0);
        assert ReachIn(g, m, x, 1);
        ReachTrans(g, x, m, x, n, 1);
        assert false;
      }
    }
  }

  // ---- The explicit-stack search ----

  ghost predicate ReachedFrom(g: Graph, start: set<Id>, v: Id) {
    exists d :: d in start && Reaches(g, d, v)
  }

  /** What the search knows between two pops: nothing visited is the target, visited nodes
      have all successors visited or stacked, and everything seen is reachable. */
  ghost predicate SearchInv(g: Graph, start: set<Id>, target: Id, visited: set<Id>, stack: seq<Id>) {
    && target !in visited
    && start <= visited + Elems(stack)
    && (forall v :: v in visited ==> Succ(g, v) <= visited + Elems(stack))
    && (forall v :: v in visited || v in stack ==> ReachedFrom(g, start, v))
    && visited <= start + Targets(g)
    && Elems(stack) <= start + Targets(g)
  }

  lemma SearchStarts(g: Graph, start: set<Id>, target: Id, stack: seq<Id>)
    requires Elems(stack) == start
    ensures SearchInv(g, start, target, {}, stack)
  {
    forall v | v in stack ensures ReachedFrom(g, start, v) {
      assert v in Elems(stack);
      assert ReachIn(g, v, v, 0);
    }
  }

  /** The stack matters only as a set of nodes. */
  lemma SameElemsSameSearch(g: Graph, start: set<Id>, target: Id, visited: set<Id>, stack: seq<Id>, stack': seq<Id>)
    requires SearchInv(g, start, target, visited, stack)
    requires visited + Elems(stack) == visited + Elems(stack') && Elems(stack') <= visited + Elems(stack)
    ensures SearchInv(g, start, target, visited, stack')
  {
    forall v | v in visited || v in stack' ensures ReachedFrom(g, start, v) {
      assert v in stack' ==> v in Elems(stack');
      assert v in visited || v in Elems(stack);
      assert v in Elems(stack) ==> v in stack;
    }
    forall v | v in Elems(stack') ensures v in start + Targets(g) {
      assert v in visited || v in Elems(stack);
    }
  }

  /** Popping a node already visited loses nothing. */
  lemma SearchSkips(g: Graph, start: set<Id>, target: Id, visited: set<Id>, stack: seq<Id>)
    requires stack != [] && SearchInv(g, start, target, visited, stack)
    requires stack[|stack| - 1] in visited
    ensures SearchInv(g, start, target, visited, stack[..|stack| - 1])
  {
    ElemsPop(stack);
    SameElemsSameSearch(g, start, target, visited, stack, stack[..|stack| - 1]);
  }

  /** Everything pushed is a successor of the node popped, so reachable and a target. */
  lemma PushedAreReached(g: Graph, start: set<Id>, c: Id, more: seq<Id>)
    requires ReachedFrom(g, start, c) && Elems(more) == Succ(g, c)
    ensures forall v :: v in more ==> ReachedFrom(g, start, v)
    ensures Elems(more) <= Targets(g)
  {
    var d :| d in start && Reaches(g, d, c);
    forall v | v in more ensures ReachedFrom(g, start, v) {
      assert v in Elems(more);
      ReachStep(g, d, c, v);
    }
    forall v | v in Elems(more) ensures v in Targets(g) {
      assert v in Succ(g, c);
    }
  }

  /** Expanding a new node: mark it, then push its successors in any order. */
  lemma SearchExpands(g: Graph, start: set<Id>, target: Id, visited: set<Id>, stack: seq<Id>, more: seq<Id>)
    requires stack != [] && SearchInv(g, start, target, visited, stack)
    requires stack[|stack| - 1] != target
    requires Elems(more) == Succ(g, stack[|stack| - 1])
    ensures SearchInv(g, start, target, visited + {stack[|stack| - 1]}, stack[..|stack| - 1] + more)
  {
    var rest, c := stack[..|stack| - 1], stack[|stack| - 1];
    ElemsPop(stack);
    ElemsConcat(rest, more);
    assert c in stack;
    PushedAreReached(g, start, c, more);
    var seen, next := visited + {c}, rest + more;
    assert seen + Elems(next) == visited + Elems(stack) + Elems(more);
    forall v | v in seen ensures Succ(g, v) <= seen + Elems(next) {
      if v == c {
        assert Succ(g, v) <= Elems(next);
      } else {
        assert Succ(g, v) <= visited + Elems(stack);
      }
    }
    forall v | v in seen || v in next ensures ReachedFrom(g, start, v) {
      if v in rest {
        assert v in stack;
      }
    }
    assert Elems(rest) <= Elems(stack);
  }

  /** An emptied stack proves that the target is out of reach. */
  lemma SearchExhausted(g: Graph, start: set<Id>, target: Id, visited: set<Id>)
    requires SearchInv(g, start, target, visited, [])
    ensures !ReachedFrom(g, start, target)
  {
    if d :| d in start && Reaches(g, d, target) {
      var n: nat :| ReachIn(g, d, target, n);
      ClosedSetContains(g, visited, d, target, n);
    }
  }
}
