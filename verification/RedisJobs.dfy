/** One Redis job on its own: its hash, its lease and its entries in the sorted set, through every
    run of everybody's steps. */
module RedisJobs {
  import opened Basics
  import opened JobStates
  import opened Sorting
  import opened RedisBackend
  import opened RedisRuns

  /** Everything stored about one job; `scores` are those of its entries in the sorted set. */
  datatype OneJob = OneJob(hash: Option<JobHash>, lease: Option<Lease>, scores: set<int>)

  function ScoresOf(s: Redis, id: Id): set<int> {
    set e | e in s.index && e.id == id :: e.score
  }

  function ViewOf(s: Redis, id: Id): OneJob {
    OneJob(if id in s.jobs then Some(s.jobs[id]) else None,
           if id in s.leases then Some(s.leases[id]) else None,
           ScoresOf(s, id))
  }

  /** Back to the queue: unclaimed, without lease, indexed under its priority and the time. */
  function Requeued(job: OneJob, now: int): OneJob
    requires job.hash.Some?
  {
    OneJob(Some(job.hash.value.(status := Queued, claimedBy := None)), None,
           {job.hash.value.priority * 10_000_000_000 - now})
  }

  predicate HasStatus(job: OneJob, status: JobStatus) {
    job.hash.Some? && job.hash.value.status == status
  }

  predicate IsLeased(job: OneJob, now: int) {
    job.lease.Some? && now < job.lease.value.expires
  }

  /** The job as a machine of its own: steps that name another job, and time, pass it by. */
  function StepAlone(job: OneJob, now: int, id: Id, op: Op, ttl: int): OneJob {
    match op
    case EnqueueOp(k, rec) =>
      if k == id then OneJob(Some(rec), job.lease, {rec.priority * 10_000_000_000 - now}) else job
    case ClaimOp(k, owner) =>
      if k == id && HasStatus(job, Queued)
      then OneJob(Some(job.hash.value.(status := Running, claimedBy := Some(owner))), Some(Lease(owner, now + ttl)), {})
      else job
    case HeartbeatOp(k) =>
      if k == id && HasStatus(job, Running) && IsLeased(job, now)
      then job.(lease := Some(Lease(job.lease.value.owner, now + ttl))) else job
    case ReleaseOp(k) => if k == id && job.hash.Some? then Requeued(job, now) else job
    case UpdateOp(k, status) =>
      if k == id && job.hash.Some? then
        OneJob(Some(job.hash.value.(status := status)),
               if status == Succeeded || status == Failed || status == Cancelled || status == TtlExpired
                  || status == DeadLettered
               then None else job.lease,
               if status == Queued then job.scores else {})
      else job
    case TickOp(_) => job
    case ReapOp(scan) =>
      if id in scan && HasStatus(job, Running) && !IsLeased(job, now) then Requeued(job, now) else job
  }

  function RunAlone(job: OneJob, now: int, id: Id, ops: seq<Op>, ttl: int): OneJob
    decreases |ops|
  {
    if ops == [] then job
    else RunAlone(StepAlone(job, now, id, ops[0], ttl), if ops[0].TickOp? then now + ops[0].d else now, id,
                  ops[1..], ttl)
  }

  lemma AddedScores(s: Redis, z: Redis, k: Id, id: Id, priority: int)
    requires z.index == ZAdd(s.index, k, Score(priority, s.now))
    ensures ScoresOf(z, id) == if k == id then {priority * 10_000_000_000 - s.now} else ScoresOf(s, id)
  {
    ZAddElems(s.index, k, Score(priority, s.now));
    if k == id {
      assert Scored(id, Score(priority, s.now)) in z.index;
    } else {
      SameEntriesSameScores(s, z, id);
    }
  }

  lemma SameEntriesSameScores(s: Redis, z: Redis, id: Id)
    requires forall e: Scored :: e.id == id ==> (e in z.index <==> e in s.index)
    ensures ScoresOf(z, id) == ScoresOf(s, id)
  {
    forall x ensures x in ScoresOf(z, id) <==> x in ScoresOf(s, id) {
      if x in ScoresOf(z, id) {
        assert Scored(id, x) in z.index;
        assert Scored(id, x) in s.index;
      }
      if x in ScoresOf(s, id) {
        assert Scored(id, x) in s.index;
        assert Scored(id, x) in z.index;
      }
    }
  }

  lemma RemovedScores(s: Redis, z: Redis, k: Id, id: Id)
    requires z.index == Without(s.index, k)
    ensures ScoresOf(z, id) == if k == id then {} else ScoresOf(s, id)
  {
    if k != id {
      SameEntriesSameScores(s, z, id);
    }
  }

  lemma ReapScores(s: Redis, z: Redis, lapsed: set<Id>, id: Id)
    requires AfterReap(s, z, lapsed)
    ensures ScoresOf(z, id) ==
            if id in lapsed then {s.jobs[id].priority * 10_000_000_000 - s.now} else ScoresOf(s, id)
  {
    if id in lapsed {
      assert Scored(id, Score(s.jobs[id].priority, s.now)) in z.index;
    } else {
      SameEntriesSameScores(s, z, id);
    }
  }

  lemma AfterReapAlone(s: Redis, z: Redis, lapsed: set<Id>, id: Id)
    requires AfterReap(s, z, lapsed)
    ensures ViewOf(z, id) == if id in lapsed then Requeued(ViewOf(s, id), s.now) else ViewOf(s, id)
  {
    ReapScores(s, z, lapsed, id);
  }

  lemma ReapAlone(s: Redis, scan: seq<Id>, id: Id, ttl: int)
    ensures ViewOf(Reap(s, scan), id) == StepAlone(ViewOf(s, id), s.now, id, ReapOp(scan), ttl)
    ensures Reap(s, scan).now == s.now
  {
    ReapIsExact(s, scan);
    AfterReapAlone(s, Reap(s, scan), LapsedIn(s, Elems(scan)), id);
    assert id in LapsedIn(s, Elems(scan)) <==>
           id in scan && HasStatus(ViewOf(s, id), Running) && !IsLeased(ViewOf(s, id), s.now);
  }

  lemma UpdateAlone(s: Redis, k: Id, status: JobStatus, id: Id, ttl: int)
    ensures ViewOf(UpdateStatus(s, k, status), id) == StepAlone(ViewOf(s, id), s.now, id, UpdateOp(k, status), ttl)
  {
    if k in s.jobs && status != Queued {
      RemovedScores(s, UpdateStatus(s, k, status), k, id);
    }
  }

  lemma EachStepAlone(s: Redis, op: Op, id: Id, ttl: int)
    ensures ViewOf(Apply(s, op, ttl), id) == StepAlone(ViewOf(s, id), s.now, id, op, ttl)
    ensures Apply(s, op, ttl).now == if op.TickOp? then s.now + op.d else s.now
  {
    var z := Apply(s, op, ttl);
    match op
    case EnqueueOp(k, rec) => AddedScores(s, z, k, id, rec.priority);
    case ClaimOp(k, _) => if IsQueued(s, k) { RemovedScores(s, z, k, id); }
    case ReleaseOp(k) => if k in s.jobs { AddedScores(s, z, k, id, s.jobs[k].priority); }
    case UpdateOp(k, status) => UpdateAlone(s, k, status, id, ttl);
    case ReapOp(scan) => ReapAlone(s, scan, id, ttl);
    case _ =>
  }

  /** Jobs do not interfere: in every run of everybody's enqueues, claims, heartbeats, releases,
      status updates and reaps, each job's hash, lease and index entries go exactly as they would
      alone. */
  lemma {:induction false} EachJobRunsAlone(s: Redis, ops: seq<Op>, id: Id, ttl: int)
    ensures ViewOf(ApplyAll(s, ops, ttl), id) == RunAlone(ViewOf(s, id), s.now, id, ops, ttl)
    decreases |ops|
  {
    if ops != [] {
      EachStepAlone(s, ops[0], id, ttl);
      EachJobRunsAlone(Apply(s, ops[0], ttl), ops[1..], id, ttl);
    }
  }

  // ---- What a run leaves of a written status ----

  /** Unless it is enqueued anew, a stored job keeps its type, queue and priority in every run. */
  lemma {:induction false} TermsStay(s: Redis, ops: seq<Op>, id: Id, ttl: int)
    requires id in s.jobs && forall op :: op in ops ==> !(op.EnqueueOp? && op.id == id)
    ensures
      var z := ApplyAll(s, ops, ttl);
      && id in z.jobs && z.jobs[id].jobType == s.jobs[id].jobType
      && z.jobs[id].queueName == s.jobs[id].queueName && z.jobs[id].priority == s.jobs[id].priority
    decreases |ops|
  {
    if ops != [] {
      assert ops[0] in ops;
      EachStepAlone(s, ops[0], id, ttl);
      TermsStay(Apply(s, ops[0], ttl), ops[1..], id, ttl);
    }
  }

  /** The step could change the job's status or claimant: it writes, claims or reaps it. */
  predicate Takes(op: Op, id: Id) {
    WritesStatusOf(op, id) || (op.ClaimOp? && op.id == id) || (op.ReapOp? && id in op.scan)
  }

  lemma {:induction false} HashStays(s: Redis, ops: seq<Op>, id: Id, ttl: int)
    requires id in s.jobs
    requires s.jobs[id].status == Queued || s.jobs[id].status == Running ==> forall op :: op in ops ==> !Takes(op, id)
    requires forall op :: op in ops ==> !WritesStatusOf(op, id)
    ensures id in ApplyAll(s, ops, ttl).jobs && ApplyAll(s, ops, ttl).jobs[id] == s.jobs[id]
    decreases |ops|
  {
    if ops != [] {
      assert ops[0] in ops;
      EachStepAlone(s, ops[0], id, ttl);
      HashStays(Apply(s, ops[0], ttl), ops[1..], id, ttl);
    }
  }

  lemma UpdateThenRest(s: Redis, id: Id, status: JobStatus, ops: seq<Op>, ttl: int)
    requires id in s.jobs
    ensures
      var z := Apply(s, UpdateOp(id, status), ttl);
      && ApplyAll(s, [UpdateOp(id, status)] + ops, ttl) == ApplyAll(z, ops, ttl)
      && id in z.jobs && z.jobs[id] == s.jobs[id].(status := status)
  {
    assert ([UpdateOp(id, status)] + ops)[1..] == ops;
    EachStepAlone(s, UpdateOp(id, status), id, ttl);
  }

  /** The status written is the status found: after an update, through any run that neither writes,
      claims nor reaps the job, it has that status, and type, queue, priority and claimant as before. */
  lemma WrittenStatusStays(s: Redis, id: Id, status: JobStatus, ops: seq<Op>, ttl: int)
    requires id in s.jobs && forall op :: op in ops ==> !Takes(op, id)
    ensures
      var z := ApplyAll(s, [UpdateOp(id, status)] + ops, ttl);
      id in z.jobs && z.jobs[id] == s.jobs[id].(status := status)
  {
    UpdateThenRest(s, id, status, ops, ttl);
    HashStays(Apply(s, UpdateOp(id, status), ttl), ops, id, ttl);
  }

  /** A status other than queued and running stays until somebody writes it: no claim, heartbeat or
      reap changes it. A succeeded job in particular stays succeeded. */
  lemma SettledStatusStays(s: Redis, id: Id, status: JobStatus, ops: seq<Op>, ttl: int)
    requires id in s.jobs && status != Queued && status != Running
    requires forall op :: op in ops ==> !WritesStatusOf(op, id)
    ensures
      var z := ApplyAll(s, [UpdateOp(id, status)] + ops, ttl);
      id in z.jobs && z.jobs[id] == s.jobs[id].(status := status)
  {
    UpdateThenRest(s, id, status, ops, ttl);
    HashStays(Apply(s, UpdateOp(id, status), ttl), ops, id, ttl);
  }

  /** An update ends the job's lease exactly for the five terminal states, and leaves every other
      job, lease and index entry alone. */
  lemma UpdateTouchesOnlyItsJob(s: Redis, id: Id, status: JobStatus, ttl: int)
    requires id in s.jobs
    ensures
      var z := Apply(s, UpdateOp(id, status), ttl);
      && (id in s.leases ==>
            (id !in z.leases <==> status in {Succeeded, Failed, Cancelled, TtlExpired, DeadLettered}))
      && (id in z.leases ==> id in s.leases && z.leases[id] == s.leases[id])
      && (forall k :: k != id ==> ViewOf(z, k) == ViewOf(s, k))
  {
    EachStepAlone(s, UpdateOp(id, status), id, ttl);
    var z := Apply(s, UpdateOp(id, status), ttl);
    assert ViewOf(z, id) == StepAlone(ViewOf(s, id), s.now, id, UpdateOp(id, status), ttl);
    forall k | k != id ensures ViewOf(z, k) == ViewOf(s, k) {
      EachStepAlone(s, UpdateOp(id, status), k, ttl);
    }
  }

  /** A release takes the job back even from a worker whose lease is live: queued, unclaimed, without
      lease, indexed as of now, and the next claim of anybody wins it. */
  lemma ReleaseTakesBack(s: Redis, id: Id, owner: Id, ttl: int)
    requires id in s.jobs
    ensures
      var z := Apply(s, ReleaseOp(id), ttl);
      && id in z.jobs && z.jobs[id] == s.jobs[id].(status := Queued, claimedBy := None)
      && id !in z.leases && ScoresOf(z, id) == {s.jobs[id].priority * 10_000_000_000 - s.now}
      && (forall k :: k != id ==> ViewOf(z, k) == ViewOf(s, k))
      && Apply(z, ClaimOp(id, owner), ttl).jobs ==
         z.jobs[id := s.jobs[id].(status := Running, claimedBy := Some(owner))]
  {
    var z := Apply(s, ReleaseOp(id), ttl);
    EachStepAlone(s, ReleaseOp(id), id, ttl);
    assert ViewOf(z, id) == Requeued(ViewOf(s, id), s.now);
    forall k | k != id ensures ViewOf(z, k) == ViewOf(s, k) {
      EachStepAlone(s, ReleaseOp(id), k, ttl);
    }
  }

  // ---- The dequeue, written out ----

  /** The ids of those entries that are queued jobs of the given type and queue, in order. */
  ghost function MatchingIds(s: Redis, z: seq<Scored>, jobType: Option<Id>, queueName: Option<Id>): seq<Id> {
    if z == [] then []
    else
      (if z[0].id in s.jobs && s.jobs[z[0].id].status == Queued
          && (jobType.Some? ==> s.jobs[z[0].id].jobType == jobType.value)
          && (queueName.Some? ==> s.jobs[z[0].id].queueName == queueName.value)
       then [z[0].id] else [])
      + MatchingIds(s, z[1..], jobType, queueName)
  }

  lemma {:induction false} WantedAreMatching(s: Redis, z: seq<Scored>, jobType: Option<Id>, queueName: Option<Id>)
    ensures WantedIds(s, z, jobType, queueName) == MatchingIds(s, z, jobType, queueName)
  {
    if z != [] {
      WantedAreMatching(s, z[1..], jobType, queueName);
    }
  }

  /** A dequeue looks at the first three entries per job asked for, at least at one, and returns the
      first that match, as many as asked for. */
  lemma DequeueWrittenOut(s: Redis, limit: nat, jobType: Option<Id>, queueName: Option<Id>)
    ensures
      var n := if limit == 0 then 1 else 3 * limit;
      var seen := if n < |s.index| then s.index[..n] else s.index;
      var found := MatchingIds(s, seen, jobType, queueName);
      Dequeue(s, limit, jobType, queueName) == if limit < |found| then found[..limit] else found
  {
    WantedAreMatching(s, Window(s.index, limit), jobType, queueName);
  }

  ghost predicate FirstDifference(a: string, b: string, k: int) {
    0 <= k < |a| && k < |b| && a[..k] == b[..k] && a[k] != b[k]
  }

  /** The first difference of two strings that begin alike is that of their rests. */
  lemma DifferenceOfRests(a: string, b: string, k: int)
    requires a != "" && b != "" && a[0] == b[0]
    ensures FirstDifference(a, b, k + 1) <==> k >= 0 && FirstDifference(a[1..], b[1..], k)
  {
    if 0 <= k < |a| - 1 && k < |b| - 1 {
      assert a[..k + 1] == [a[0]] + a[1..][..k] && b[..k + 1] == [b[0]] + b[1..][..k];
      assert a[..k + 1][1..] == a[1..][..k] && b[..k + 1][1..] == b[1..][..k];
    }
  }

  lemma PrefixOfRests(a: string, b: string)
    requires a != "" && b != "" && a[0] == b[0]
    ensures a <= b <==> a[1..] <= b[1..]
  {
    assert a == [a[0]] + a[1..] && b == [b[0]] + b[1..];
  }

  /** Ties in the sorted set are broken by the ids' lexicographic order. */
  lemma {:induction false} StrLeqIsLexicographic(a: string, b: string)
    ensures StrLeq(a, b) <==> a <= b || exists k :: FirstDifference(a, b, k) && a[k] < b[k]
  {
    if a != "" && b != "" && a[0] == b[0] {
      StrLeqIsLexicographic(a[1..], b[1..]);
      PrefixOfRests(a, b);
      if k :| FirstDifference(a, b, k) && a[k] < b[k] {
        DifferenceOfRests(a, b, k - 1);
        assert a[1..][k - 1] < b[1..][k - 1];
      }
      if k :| FirstDifference(a[1..], b[1..], k) && a[1..][k] < b[1..][k] {
        DifferenceOfRests(a, b, k);
        assert a[k + 1] < b[k + 1];
      }
    } else if a != "" && b != "" {
      assert FirstDifference(a, b, 0);
    }
  }
}
