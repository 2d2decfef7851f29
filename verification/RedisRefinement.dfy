/** The packed-score index answers `dequeue` as a filtered, sorted and truncated scan would. */
module RedisRefinement {
  import opened Basics
  import opened JobStates
  import opened Sorting
  import opened RedisBackend
  import opened RedisRuns
  import M = MemoryBackend

  /** No two queued jobs of one priority were queued at the same moment. */
  ghost predicate StampsDiffer(s: Redis) {
    forall a, b :: IsQueued(s, a) && IsQueued(s, b) && a in s.stamps && b in s.stamps && a != b ==>
      s.jobs[a].priority != s.jobs[b].priority || s.stamps[a] != s.stamps[b]
  }

  /** What the index holds for a queued job. */
  function ScoredOfJob(s: Redis, id: Id): Scored
    requires id in s.jobs && id in s.stamps
  {
    Scored(id, Score(s.jobs[id].priority, s.stamps[id]))
  }

  /** Every queued job of higher priority was queued less than the priority gap's worth of
      milliseconds after every one of lower priority, or exactly that with the greater id. */
  ghost predicate GapsCoverTheWaits(s: Redis) {
    forall a, b :: IsQueued(s, a) && IsQueued(s, b) && a in s.stamps && b in s.stamps
                   && s.jobs[a].priority > s.jobs[b].priority ==>
      var later, span := s.stamps[a] - s.stamps[b], (s.jobs[a].priority - s.jobs[b].priority) * 10_000_000_000;
      later < span || (later == span && StrLeq(b, a))
  }

  lemma WithinGapRanksFirst(s: Redis, a: Id, b: Id)
    requires a in s.jobs && a in s.stamps && b in s.jobs && b in s.stamps
    ensures
      var later, span := s.stamps[a] - s.stamps[b], (s.jobs[a].priority - s.jobs[b].priority) * 10_000_000_000;
      Outranks(ScoredOfJob(s, a), ScoredOfJob(s, b)) <==> later < span || (later == span && StrLeq(b, a))
  {
  }

  /** A memory store with the same jobs, whose creation stamps are the queueing times. */
  ghost predicate Mirrors(m: M.Store, s: Redis) {
    && M.ValidStore(m)
    && (forall id :: M.IsWanted(m, id, None, None) <==> IsQueued(s, id))
    && (forall id :: IsQueued(s, id) ==>
          id in s.stamps && m.jobs[id].priority == s.jobs[id].priority && m.jobs[id].createdAt == s.stamps[id])
  }

  function ScoredOf(e: M.Entry): Scored {
    Scored(e.id, Score(e.priority, e.createdAt))
  }

  function ScoreAll(es: seq<M.Entry>): (r: seq<Scored>)
    ensures |r| == |es| && forall i :: 0 <= i < |r| ==> r[i] == ScoredOf(es[i])
  {
    seq(|es|, i requires 0 <= i < |es| => ScoredOf(es[i]))
  }

  lemma {:induction false} SameElemsSameMultiset<T>(a: seq<T>, b: seq<T>)
    requires Distinct(a) && Distinct(b) && forall x :: x in a <==> x in b
    ensures multiset(a) == multiset(b)
  {
    forall x ensures multiset(a)[x] == multiset(b)[x] {
      M.DistinctCountsOnce(a, x);
      M.DistinctCountsOnce(b, x);
      assert x in multiset(a) <==> x in a;
      assert x in multiset(b) <==> x in b;
    }
  }

  /** What precedes in memory ranks first in the index. */
  lemma PrecedingIsRanked(m: M.Store, s: Redis, a: Id, b: Id)
    requires Mirrors(m, s) && GapsCoverTheWaits(s) && StampsDiffer(s)
    requires IsQueued(s, a) && IsQueued(s, b) && a != b && a in m.jobs && b in m.jobs
    requires M.Precedes(M.EntryOf(m, a), M.EntryOf(m, b))
    ensures Outranks(ScoredOf(M.EntryOf(m, a)), ScoredOf(M.EntryOf(m, b)))
  {
    assert ScoredOf(M.EntryOf(m, a)) == ScoredOfJob(s, a) && ScoredOf(M.EntryOf(m, b)) == ScoredOfJob(s, b);
    if s.jobs[a].priority > s.jobs[b].priority {
      WithinGapRanksFirst(s, a, b);
    }
  }

  /** The memory ranking, rescored, is in index order. */
  lemma RescoredIsRanked(m: M.Store, s: Redis)
    requires Mirrors(m, s) && GapsCoverTheWaits(s) && StampsDiffer(s)
    ensures Sorted(ScoreAll(M.Ranking(m, None, None)), Outranks)
  {
    var r := M.Ranking(m, None, None);
    M.RankingIsExact(m, None, None);
    forall i, j | 0 <= i < j < |r| ensures Outranks(ScoredOf(r[i]), ScoredOf(r[j])) {
      var a, b := r[i].id, r[j].id;
      assert r[i] in r && r[j] in r;
      assert M.IdsOf(r)[i] == a && M.IdsOf(r)[j] == b;
      assert a in M.IdsOf(r) && b in M.IdsOf(r);
      PrecedingIsRanked(m, s, a, b);
    }
  }

  /** The index, without its scores, is the memory ranking. */
  lemma IndexIsTheRanking(m: M.Store, s: Redis)
    requires IndexExact(s) && Mirrors(m, s) && GapsCoverTheWaits(s) && StampsDiffer(s)
    ensures s.index == ScoreAll(M.Ranking(m, None, None))
  {
    var r := M.Ranking(m, None, None);
    var z := ScoreAll(r);
    M.RankingIsExact(m, None, None);
    RescoredIsRanked(m, s);
    OutranksIsTotal();
    assert Distinct(s.index);
    forall i, j | 0 <= i < j < |z| ensures z[i] != z[j] {
      assert M.IdsOf(r)[i] != M.IdsOf(r)[j];
    }
    forall e ensures e in z <==> e in s.index {
      if e in z {
        var i :| 0 <= i < |z| && z[i] == e;
        assert r[i] in r && M.IdsOf(r)[i] in M.IdsOf(r);
        assert IsQueued(s, r[i].id);
      }
      if e in s.index {
        assert M.IsWanted(m, e.id, None, None);
        var i :| 0 <= i < |r| && M.IdsOf(r)[i] == e.id;
        assert r[i] in r;
        assert z[i] == e;
      }
    }
    SameElemsSameMultiset(s.index, z);
    SortedIsUnique(s.index, z, Outranks);
  }

  lemma {:induction false} AllWanted(s: Redis, z: seq<Scored>)
    requires forall e :: e in z ==> IsQueued(s, e.id)
    ensures
      var r := WantedIds(s, z, None, None);
      |r| == |z| && forall i :: 0 <= i < |r| ==> r[i] == z[i].id
  {
    if z != [] {
      assert z[0] in z;
      AllWanted(s, z[1..]);
    }
  }

  /** With an exact index an unfiltered dequeue returns the first ids of the index. */
  lemma UnfilteredTakesThePrefix(s: Redis, limit: int)
    requires IndexExact(s)
    ensures
      var r := Dequeue(s, limit, None, None);
      && |r| == |First(s.index, limit)|
      && forall i :: 0 <= i < |r| ==> r[i] == s.index[i].id
  {
    var w := Window(s.index, limit);
    assert forall e :: e in w ==> e in s.index;
    AllWanted(s, w);
  }

  /** Refinement: while the priority gaps cover the waits and no two jobs of a priority share a
      stamp, the unfiltered dequeue equals the memory backend's filter, sort and truncate. */
  lemma DequeueRefinesScan(m: M.Store, s: Redis, limit: nat)
    requires IndexExact(s) && Mirrors(m, s) && GapsCoverTheWaits(s) && StampsDiffer(s)
    ensures Dequeue(s, limit, None, None) == M.Dequeue(m, limit, None, None)
  {
    IndexIsTheRanking(m, s);
    UnfilteredTakesThePrefix(s, limit);
    var ranked := Prefix(M.Ranking(m, None, None), limit);
    var a, b := Dequeue(s, limit, None, None), M.Dequeue(m, limit, None, None);
    assert |a| == |b|;
    forall i | 0 <= i < |a| ensures a[i] == b[i] {
      assert b[i] == ranked[i].id;
      assert ranked[i] == M.Ranking(m, None, None)[i];
    }
  }

  ghost predicate DequeuesAgree(m: M.Store, s: Redis) {
    forall limit: nat :: Dequeue(s, limit, None, None) == M.Dequeue(m, limit, None, None)
  }

  /** Once both dequeues list the same ids, the index and the memory ranking do. */
  lemma SameIdsInOrder(m: M.Store, s: Redis)
    requires IndexExact(s) && Mirrors(m, s) && DequeuesAgree(m, s)
    ensures
      var r := M.Ranking(m, None, None);
      |r| == |s.index| && forall i :: 0 <= i < |r| ==> r[i].id == s.index[i].id
  {
    var r := M.Ranking(m, None, None);
    var limit: nat := |r| + |s.index|;
    UnfilteredTakesThePrefix(s, limit);
    assert Dequeue(s, limit, None, None) == M.Dequeue(m, limit, None, None);
    assert Prefix(r, limit) == r && First(s.index, limit) == s.index;
    assert M.Dequeue(m, limit, None, None) == M.IdsOf(r);
    forall i | 0 <= i < |r| ensures r[i].id == s.index[i].id {
      assert M.IdsOf(r)[i] == s.index[i].id;
    }
  }

  /** Agreement puts the higher of two priorities first in the index. */
  lemma AgreementRanksByPriority(m: M.Store, s: Redis, a: Id, b: Id)
    requires IndexExact(s) && Mirrors(m, s) && DequeuesAgree(m, s)
    requires IsQueued(s, a) && IsQueued(s, b) && s.jobs[a].priority > s.jobs[b].priority
    ensures Outranks(ScoredOfJob(s, a), ScoredOfJob(s, b))
  {
    var r := M.Ranking(m, None, None);
    SameIdsInOrder(m, s);
    M.RankingIsExact(m, None, None);
    assert ScoredOfJob(s, a) in s.index && ScoredOfJob(s, b) in s.index;
    var i :| 0 <= i < |s.index| && s.index[i] == ScoredOfJob(s, a);
    var j :| 0 <= j < |s.index| && s.index[j] == ScoredOfJob(s, b);
    assert r[i].id == a && r[j].id == b && r[i] in r && r[j] in r;
    assert !(j < i);
  }

  /** The exact condition: with an exact index and no shared stamps, every unfiltered dequeue
      equals the scan if and only if the priority gaps cover the waits. */
  lemma DequeueRefinesScanIff(m: M.Store, s: Redis)
    requires IndexExact(s) && Mirrors(m, s) && StampsDiffer(s)
    ensures DequeuesAgree(m, s) <==> GapsCoverTheWaits(s)
  {
    if GapsCoverTheWaits(s) {
      forall limit: nat ensures Dequeue(s, limit, None, None) == M.Dequeue(m, limit, None, None) {
        DequeueRefinesScan(m, s, limit);
      }
    }
    if DequeuesAgree(m, s) {
      forall a, b | IsQueued(s, a) && IsQueued(s, b) && s.jobs[a].priority > s.jobs[b].priority
        ensures Outranks(ScoredOfJob(s, a), ScoredOfJob(s, b))
        ensures
          var later, span := s.stamps[a] - s.stamps[b], (s.jobs[a].priority - s.jobs[b].priority) * 10_000_000_000;
          later < span || (later == span && StrLeq(b, a))
      {
        AgreementRanksByPriority(m, s, a, b);
        WithinGapRanksFirst(s, a, b);
      }
    }
  }

  // ---- The store a run of Redis steps stands for ----

  /** The queued jobs as the memory backend would hold them, in index order. */
  function MirrorOf(s: Redis): M.Store {
    M.Store(map id | id in s.jobs && s.jobs[id].status == Queued && id in s.stamps ::
              M.JobRec(s.jobs[id].jobType, s.jobs[id].queueName, s.jobs[id].priority, s.stamps[id],
                       [], map[], None, Queued, None),
            WantedIds(s, s.index, None, None), [])
  }

  lemma MirrorMirrors(s: Redis)
    requires IndexExact(s)
    ensures Mirrors(MirrorOf(s), s)
  {
    var m := MirrorOf(s);
    AllWanted(s, s.index);
    forall id ensures id in m.order <==> id in m.jobs {
      if id in m.order {
        var i :| 0 <= i < |s.index| && m.order[i] == id;
        assert s.index[i] in s.index;
      }
      if id in m.jobs {
        var i :| 0 <= i < |s.index| && s.index[i] == ScoredOfJob(s, id);
        assert m.order[i] == s.index[i].id;
      }
    }
    assert Elems(m.order) == m.jobs.Keys;
  }

  /** Over every run that keeps the index exact, at whatever moment no two queued jobs of a
      priority share a stamp: the sorted set answers every unfiltered dequeue as a scan of the
      queued jobs would if and only if the priority gaps cover the waits. */
  lemma RunsRefineTheScanIff(ops: seq<Op>, ttl: int)
    requires IndexSafe(EMPTY_REDIS, ops, ttl)
    ensures
      var z := ApplyAll(EMPTY_REDIS, ops, ttl);
      StampsDiffer(z) ==> (DequeuesAgree(MirrorOf(z), z) <==> GapsCoverTheWaits(z))
  {
    var z := ApplyAll(EMPTY_REDIS, ops, ttl);
    EmptyRedisIsGood();
    IndexStaysExact(EMPTY_REDIS, ops, ttl);
    MirrorMirrors(z);
    if StampsDiffer(z) {
      DequeueRefinesScanIff(MirrorOf(z), z);
    }
  }

  /** All queued jobs were queued within one score unit, about 116 days, of each other. */
  ghost predicate WithinOneUnit(s: Redis) {
    forall a, b :: IsQueued(s, a) && IsQueued(s, b) && a in s.stamps && b in s.stamps ==>
      s.stamps[a] - s.stamps[b] < 10_000_000_000
  }

  lemma OneUnitCovers(s: Redis)
    requires WithinOneUnit(s)
    ensures GapsCoverTheWaits(s)
  {
  }

  /** In practice: at the end of every such run, with no job waiting one score unit longer than
      another, the sorted set answers every unfiltered dequeue as a scan would. */
  lemma RunsWithinOneUnitRefineTheScan(ops: seq<Op>, ttl: int)
    requires IndexSafe(EMPTY_REDIS, ops, ttl)
    requires WithinOneUnit(ApplyAll(EMPTY_REDIS, ops, ttl)) && StampsDiffer(ApplyAll(EMPTY_REDIS, ops, ttl))
    ensures DequeuesAgree(MirrorOf(ApplyAll(EMPTY_REDIS, ops, ttl)), ApplyAll(EMPTY_REDIS, ops, ttl))
  {
    OneUnitCovers(ApplyAll(EMPTY_REDIS, ops, ttl));
    RunsRefineTheScanIff(ops, ttl);
  }

  /** A filtered dequeue looks at a bounded window, so it returns the best matching jobs exactly
      when the window holds enough of them or nothing beyond it matches. */
  lemma FilteredDequeueIff(s: Redis, limit: nat, jobType: Option<Id>, queueName: Option<Id>)
    ensures
      var w := Window(s.index, limit);
      Dequeue(s, limit, jobType, queueName) == First(WantedIds(s, s.index, jobType, queueName), limit) <==>
      |WantedIds(s, w, jobType, queueName)| >= limit || WantedIds(s, s.index[|w|..], jobType, queueName) == []
  {
    var w := Window(s.index, limit);
    assert s.index == w + s.index[|w|..];
    WantedConcat(s, w, s.index[|w|..], jobType, queueName);
    var near, far := WantedIds(s, w, jobType, queueName), WantedIds(s, s.index[|w|..], jobType, queueName);
    if |near| >= limit {
      assert First(near + far, limit) == First(near, limit);
    } else if far == [] {
      assert near + far == near;
    } else {
      assert |First(near + far, limit)| > |near|;
    }
  }

  function NewJob(jobType: Id, priority: int): JobHash {
    JobHash(jobType, "q", priority, Queued, None)
  }

  /** A job whose type is also its id. */
  function JobOp(jobType: Id, priority: int): Op {
    EnqueueOp(jobType, NewJob(jobType, priority))
  }

  /** Three entries of other types at the front of the index. */
  lemma WindowHides(z: Redis, jobType: Id)
    requires |z.index| == 4 && IsWanted(z, z.index[3].id, Some(jobType), None)
    requires forall i :: 0 <= i < 3 && z.index[i].id in z.jobs ==> z.jobs[z.index[i].id].jobType != jobType
    ensures Dequeue(z, 1, Some(jobType), None) == []
    ensures WantedIds(z, z.index, Some(jobType), None) == [z.index[3].id]
  {
    var near, far := z.index[..3], z.index[3..];
    assert Window(z.index, 1) == near;
    assert z.index == near + far && far[1..] == [];
    NoneWanted(z, near, jobType);
    WantedConcat(z, near, far, Some(jobType), None);
  }

  /** Two new jobs enqueued, the second of higher priority, both ranking before all others. */
  lemma TwoInFront(s: Redis, first: Id, p: int, second: Id, q: int, ttl: int) returns (z: Redis)
    requires IndexExact(s) && first != second && p < q
    requires forall e :: e in s.index ==> e.id != first && e.id != second && e.score < Score(p, s.now)
    ensures z == Apply(Apply(s, JobOp(first, p), ttl), JobOp(second, q), ttl)
    ensures IndexExact(z) && z.now == s.now
    ensures z.index == [Scored(second, Score(q, s.now)), Scored(first, Score(p, s.now))] + s.index
    ensures first in z.jobs && z.jobs[first] == NewJob(first, p)
    ensures second in z.jobs && z.jobs[second] == NewJob(second, q)
    ensures forall id :: id in s.jobs && id != first && id != second ==> id in z.jobs && z.jobs[id] == s.jobs[id]
  {
    var mid := FrontEnqueue(s, first, p, ttl);
    z := FrontEnqueue(mid, second, q, ttl);
  }

  lemma FourInFront(s: Redis, wanted: Id, x: Id, y: Id, w: Id, ttl: int) returns (z: Redis)
    requires IndexExact(s) && s.index == [] && wanted != x && wanted != y && wanted != w && x != y && x != w && y != w
    ensures z == Apply(Apply(Apply(Apply(s, JobOp(wanted, 0), ttl), JobOp(x, 1), ttl), JobOp(y, 2), ttl),
                       JobOp(w, 3), ttl)
    ensures IndexExact(z) && |z.index| == 4
    ensures z.index[0].id == w && z.index[1].id == y && z.index[2].id == x && z.index[3].id == wanted
    ensures w in z.jobs && y in z.jobs && x in z.jobs && IsQueued(z, wanted)
    ensures z.jobs[w].jobType == w && z.jobs[y].jobType == y && z.jobs[x].jobType == x
    ensures z.jobs[wanted].jobType == wanted
  {
    var mid := TwoInFront(s, wanted, 0, x, 1, ttl);
    z := TwoInFront(mid, y, 2, w, 3, ttl);
  }

  /** Three jobs of other types enqueued with higher priorities hide the only match from a
      filtered `limit = 1`, starting from any backend with nothing queued. */
  lemma MatchBeyondTheWindow(s: Redis, wanted: Id, x: Id, y: Id, w: Id, ttl: int)
    requires IndexExact(s) && s.index == [] && wanted != x && wanted != y && wanted != w && x != y && x != w && y != w
    ensures
      var z := ApplyAll(s, [JobOp(wanted, 0), JobOp(x, 1), JobOp(y, 2), JobOp(w, 3)], ttl);
      && IndexExact(z) && IsWanted(z, wanted, Some(wanted), None)
      && Dequeue(z, 1, Some(wanted), None) == [] && WantedIds(z, z.index, Some(wanted), None) == [wanted]
  {
    var z := FourInFront(s, wanted, x, y, w, ttl);
    WindowHides(z, wanted);
    FourSteps(s, JobOp(wanted, 0), JobOp(x, 1), JobOp(y, 2), JobOp(w, 3), ttl);
  }

  lemma NoneWanted(s: Redis, z: seq<Scored>, jobType: Id)
    requires forall e :: e in z && IsQueued(s, e.id) ==> s.jobs[e.id].jobType != jobType
    ensures WantedIds(s, z, Some(jobType), None) == []
  {
    if z != [] {
      assert z[0] in z;
      NoneWanted(s, z[1..], jobType);
    }
  }

  lemma FourSteps(s: Redis, a: Op, b: Op, c: Op, d: Op, ttl: int)
    ensures ApplyAll(s, [a, b, c, d], ttl) == Apply(Apply(Apply(Apply(s, a, ttl), b, ttl), c, ttl), d, ttl)
  {
    var s1, s2, s3 := Apply(s, a, ttl), Apply(Apply(s, a, ttl), b, ttl), Apply(Apply(Apply(s, a, ttl), b, ttl), c, ttl);
    assert [a, b, c, d][1..] == [b, c, d] && [b, c, d][1..] == [c, d] && [c, d][1..] == [d] && [d][1..] == [];
    assert ApplyAll(s3, [d], ttl) == ApplyAll(Apply(s3, d, ttl), [], ttl);
    assert ApplyAll(s2, [c, d], ttl) == ApplyAll(s3, [d], ttl);
    assert ApplyAll(s1, [b, c, d], ttl) == ApplyAll(s2, [c, d], ttl);
  }

  /** Enqueues a new job that ranks before everything indexed. */
  lemma FrontEnqueue(s: Redis, id: Id, priority: int, ttl: int) returns (z: Redis)
    requires IndexExact(s) && forall e :: e in s.index ==> e.id != id && e.score < Score(priority, s.now)
    ensures z == Apply(s, JobOp(id, priority), ttl) && z.jobs == s.jobs[id := NewJob(id, priority)]
    ensures IndexExact(z) && z.now == s.now && z.index == [Scored(id, Score(priority, s.now))] + s.index
  {
    z := Apply(s, JobOp(id, priority), ttl);
    WithoutAbsent(s.index, id);
    assert s.index != [] ==> s.index[0] in s.index;
    EnqueueKeepsIndexIff(s, id, NewJob(id, priority));
  }

  const LONGER_THAN_A_STEP: nat := 10_000_000_001

  /** The state in which `late` is enqueued, 116 days after `early`. */
  lemma EarlyWaits(s: Redis, early: Id, ttl: int) returns (z: Redis)
    requires IndexExact(s) && s.index == [] && s.now == 0
    ensures z == Apply(Apply(s, JobOp(early, 0), ttl), TickOp(LONGER_THAN_A_STEP), ttl)
    ensures IndexExact(z) && z.index == [Scored(early, 0)] && z.now == LONGER_THAN_A_STEP && IsQueued(z, early)
    ensures z.jobs[early].priority == 0
  {
    var mid := FrontEnqueue(s, early, 0, ttl);
    z := Apply(mid, TickOp(LONGER_THAN_A_STEP), ttl);
  }

  /** Beyond that span the order turns over: a job of priority 1 enqueued 116 days after a job of
      priority 0 is dequeued after it. */
  lemma OldJobOvertakesPriority(s: Redis, early: Id, late: Id, ttl: int)
    requires IndexExact(s) && s.index == [] && s.now == 0 && early != late
    ensures
      var z := Apply(Apply(Apply(s, JobOp(early, 0), ttl), TickOp(LONGER_THAN_A_STEP), ttl), JobOp(late, 1), ttl);
      && IndexExact(z) && IsQueued(z, early) && IsQueued(z, late)
      && z.jobs[early].priority < z.jobs[late].priority && Dequeue(z, 1, None, None) == [early]
  {
    var mid := EarlyWaits(s, early, ttl);
    var z := Apply(mid, JobOp(late, 1), ttl);
    EnqueueKeepsIndexIff(mid, late, NewJob(late, 1));
    WithoutAbsent(mid.index, late);
    var e, l := Scored(early, 0), Scored(late, -1);
    assert Score(1, mid.now) == -1;
    assert [e][1..] == [];
    assert Insert(l, [e], Outranks) == [e] + Insert(l, [], Outranks);
    assert z.index == [e, l];
    UnfilteredTakesThePrefix(z, 1);
    assert Dequeue(z, 1, None, None)[0] == early;
  }
}
