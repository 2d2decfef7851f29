/** Small vocabulary shared by every module: identifiers, dictionary reads with a
    default of zero, and sequences seen as sets. */
module Basics {
  /** Job, tenant, worker, queue, pool and job-type names. */
  type Id = string

  datatype Option<+T> = None | Some(value: T)

  /** `d.get(k, 0)` on a counter dictionary. */
  function Get(m: map<Id, nat>, k: Id): nat {
    if k in m then m[k] else 0
  }

  /** `max(0, a - b)`. */
  function Monus(a: nat, b: nat): nat {
    if a >= b then a - b else 0
  }

  /** Two counter dictionaries that every `get(k, 0)` sees alike. */
  ghost predicate SameCounts(a: map<Id, nat>, b: map<Id, nat>) {
    forall k :: Get(a, k) == Get(b, k)
  }

  function Elems<T>(s: seq<T>): set<T> {
    set x | x in s
  }

  ghost predicate Distinct<T>(s: seq<T>) {
    forall i, j :: 0 <= i < j < |s| ==> s[i] != s[j]
  }

  /** `s` is obtained from `t` by dropping elements. */
  ghost predicate IsSubsequence<T>(s: seq<T>, t: seq<T>) {
    if s == [] then true
    else if t == [] then false
    else if s[0] == t[0] then IsSubsequence(s[1..], t[1..])
    else IsSubsequence(s, t[1..])
  }

  /** Python's `s[:limit]`: a negative limit drops elements from the end. */
  function Prefix<T>(s: seq<T>, limit: int): (r: seq<T>)
    ensures r <= s
    ensures limit >= |s| ==> r == s
  {
    if limit >= |s| then s
    else if limit >= 0 then s[..limit]
    else if |s| + limit >= 0 then s[..|s| + limit]
    else []
  }

  function RemoveAt<T>(s: seq<T>, k: nat): seq<T>
    requires k < |s|
  {
    s[..k] + s[k + 1..]
  }

  /** A filter that is not given matches every name. */
  predicate Matches(name: Id, filter: Option<Id>) {
    filter == None || filter == Some(name)
  }

  lemma ElemsConcat<T>(a: seq<T>, b: seq<T>)
    ensures Elems(a + b) == Elems(a) + Elems(b)
  {
    forall v ensures v in Elems(a + b) <==> v in Elems(a) || v in Elems(b) {
      assert v in Elems(a + b) <==> v in a + b;
      assert v in Elems(a) <==> v in a;
      assert v in Elems(b) <==> v in b;
    }
  }

  lemma ElemsPop<T>(stack: seq<T>)
    requires stack != []
    ensures Elems(stack) == Elems(stack[..|stack| - 1]) + {stack[|stack| - 1]}
  {
    var rest, c := stack[..|stack| - 1], stack[|stack| - 1];
    ElemsConcat(rest, [c]);
    assert stack == rest + [c];
    assert Elems([c]) == {c};
  }

  lemma DistinctLength<T>(s: seq<T>)
    requires Distinct(s)
    ensures |s| == |Elems(s)|
  {
    if s != [] {
      assert Elems(s) == {s[0]} + Elems(s[1..]);
      assert s[0] !in Elems(s[1..]);
      DistinctLength(s[1..]);
    }
  }

  lemma MoveFirst<T>(a: seq<T>, b: seq<T>)
    requires b != []
    ensures a + b == a + [b[0]] + b[1..]
  {
  }

  lemma SubsetCardinality<T>(a: set<T>, b: set<T>)
    requires a <= b
    ensures |a| <= |b|
    ensures a != b ==> |a| < |b|
  {
    assert b == a + (b - a);
    if a != b {
      assert b - a != {};
    }
  }
}
