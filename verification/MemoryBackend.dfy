/** The in-memory backend: a dictionary of job objects in insertion order, whose status and
    claimant change in place. */
module MemoryBackend {
  import opened Basics
  import opened JobStates
  import opened ResourcePools
  import opened DependencyTracking
  import opened Sorting

  /** A job as a value; `source` is the failed job a dead letter was made from. */
  datatype JobRec = JobRec(jobType: Id, queueName: Id, priority: int, createdAt: int,
                           dependsOn: seq<Id>, resources: Slots, source: Option<Id>,
                           status: JobStatus, claimedBy: Option<Id>)

  /** One status write to a stored job. */
  datatype Write = Write(id: Id, from: JobStatus, to: JobStatus)

  /** The dictionary, its insertion order, and every status write made so far. */
  datatype Store = Store(jobs: map<Id, JobRec>, order: seq<Id>, log: seq<Write>)

  const EMPTY_STORE := Store(map[], [], [])

  ghost predicate ValidStore(s: Store) {
    Distinct(s.order) && Elems(s.order) == s.jobs.Keys
  }

  function StatusesOf(s: Store): Statuses {
    map id | id in s.jobs :: s.jobs[id].status
  }

  // ---- What each operation does to the store ----

  function Put(s: Store, id: Id, rec: JobRec): Store {
    Store(s.jobs[id := rec], if id in s.jobs then s.order else s.order + [id], s.log)
  }

  function Overwrite(s: Store, id: Id, rec: JobRec): Store
    requires id in s.jobs
  {
    Store(s.jobs[id := rec], s.order, s.log + [Write(id, s.jobs[id].status, rec.status)])
  }

  predicate CanClaim(s: Store, id: Id) {
    id in s.jobs && s.jobs[id].status == Queued
  }

  function Claim(s: Store, id: Id, owner: Id): Store {
    if CanClaim(s, id) then Overwrite(s, id, s.jobs[id].(status := Running, claimedBy := Some(owner))) else s
  }

  function SetStatus(s: Store, id: Id, status: JobStatus): Store {
    if id in s.jobs then Overwrite(s, id, s.jobs[id].(status := status)) else s
  }

  function Requeue(s: Store, id: Id): Store {
    if id in s.jobs then Overwrite(s, id, s.jobs[id].(status := Queued, claimedBy := None)) else s
  }

  predicate IsWanted(s: Store, id: Id, jobType: Option<Id>, queueName: Option<Id>) {
    id in s.jobs && s.jobs[id].status == Queued
    && Matches(s.jobs[id].jobType, jobType) && Matches(s.jobs[id].queueName, queueName)
  }

  /** What the sort sees of a job. */
  datatype Entry = Entry(id: Id, priority: int, createdAt: int)

  /** Higher priority first, then older first. */
  predicate Precedes(a: Entry, b: Entry) {
    a.priority > b.priority || (a.priority == b.priority && a.createdAt <= b.createdAt)
  }

  function EntryOf(s: Store, id: Id): Entry
    requires id in s.jobs
  {
    Entry(id, s.jobs[id].priority, s.jobs[id].createdAt)
  }

  /** The filtering comprehension, in dictionary order. */
  function Wanted(s: Store, ids: seq<Id>, jobType: Option<Id>, queueName: Option<Id>): (r: seq<Entry>)
    ensures forall e :: e in r <==> e.id in ids && IsWanted(s, e.id, jobType, queueName) && e == EntryOf(s, e.id)
  {
    if ids == [] then []
    else (if IsWanted(s, ids[0], jobType, queueName) then [EntryOf(s, ids[0])] else [])
         + Wanted(s, ids[1..], jobType, queueName)
  }

  function IdsOf(es: seq<Entry>): (r: seq<Id>)
    ensures |r| == |es| && forall i :: 0 <= i < |r| ==> r[i] == es[i].id
  {
    seq(|es|, i requires 0 <= i < |es| => es[i].id)
  }

  /** Every wanted job, best first. */
  function Ranking(s: Store, jobType: Option<Id>, queueName: Option<Id>): seq<Entry> {
    SortBy(Wanted(s, s.order, jobType, queueName), Precedes)
  }

  function Dequeue(s: Store, limit: int, jobType: Option<Id>, queueName: Option<Id>): seq<Id> {
    IdsOf(Prefix(Ranking(s, jobType, queueName), limit))
  }

  lemma PrecedesIsTotal()
    ensures TotalPreorder(Precedes)
  {
  }

  lemma {:induction false} WantedDistinct(s: Store, ids: seq<Id>, jobType: Option<Id>, queueName: Option<Id>)
    requires Distinct(ids)
    ensures Distinct(IdsOf(Wanted(s, ids, jobType, queueName)))
  {
    if ids != [] {
      WantedDistinct(s, ids[1..], jobType, queueName);
      var rest := Wanted(s, ids[1..], jobType, queueName);
      forall i | 0 <= i < |rest| ensures IdsOf(rest)[i] != ids[0] {
        assert rest[i] in rest;
      }
      forall i, j | 0 <= i < j < |IdsOf(rest)| ensures rest[i].id != rest[j].id {
        assert IdsOf(rest)[i] != IdsOf(rest)[j];
      }
    }
  }

  lemma DistinctIdsDistinctEntries(es: seq<Entry>)
    requires Distinct(IdsOf(es))
    ensures Distinct(es)
  {
    forall i, j | 0 <= i < j < |es| ensures es[i] != es[j] {
      assert IdsOf(es)[i] != IdsOf(es)[j];
    }
  }

  lemma DistinctCountsOnce<T>(a: seq<T>, x: T)
    requires Distinct(a)
    ensures multiset(a)[x] <= 1
  {
    if x in multiset(a) {
      var k :| 0 <= k < |a| && a[k] == x;
      assert a == a[..k] + [x] + a[k + 1..];
      assert x !in a[..k] && x !in a[k + 1..];
    }
  }

  /** A rearrangement of pairwise different elements has pairwise different elements. */
  lemma DistinctPermutation<T>(a: seq<T>, b: seq<T>)
    requires Distinct(a) && multiset(a) == multiset(b)
    ensures Distinct(b)
  {
    forall i, j | 0 <= i < j < |b| ensures b[i] != b[j] {
      DistinctCountsOnce(a, b[i]);
      assert b == b[..i] + [b[i]] + b[i + 1..j] + [b[j]] + b[j + 1..];
    }
  }

  lemma RankedIffWanted(s: Store, jobType: Option<Id>, queueName: Option<Id>, id: Id)
    requires ValidStore(s)
    ensures id in IdsOf(Ranking(s, jobType, queueName)) <==> IsWanted(s, id, jobType, queueName)
  {
    var w, r := Wanted(s, s.order, jobType, queueName), Ranking(s, jobType, queueName);
    SortIsPermutation(w, Precedes);
    PermutationElems(r, w);
    if id in IdsOf(r) {
      var i :| 0 <= i < |r| && IdsOf(r)[i] == id;
      assert r[i] in w;
    }
    if IsWanted(s, id, jobType, queueName) {
      assert id in Elems(s.order);
      assert EntryOf(s, id) in w;
      var i :| 0 <= i < |r| && r[i] == EntryOf(s, id);
      assert IdsOf(r)[i] == id;
    }
  }

  /** The ranking lists each wanted job once, sorted by priority and age. */
  lemma RankingIsExact(s: Store, jobType: Option<Id>, queueName: Option<Id>)
    requires ValidStore(s)
    ensures
      var r := Ranking(s, jobType, queueName);
      && Sorted(r, Precedes)
      && Distinct(IdsOf(r))
      && (forall id :: id in IdsOf(r) <==> IsWanted(s, id, jobType, queueName))
      && (forall e :: e in r ==> e.id in s.jobs && e == EntryOf(s, e.id))
  {
    var w := Wanted(s, s.order, jobType, queueName);
    var r := Ranking(s, jobType, queueName);
    PrecedesIsTotal();
    SortSorts(w, Precedes);
    SortIsPermutation(w, Precedes);
    PermutationElems(r, w);
    WantedDistinct(s, s.order, jobType, queueName);
    DistinctIdsDistinctEntries(w);
    DistinctPermutation(w, r);
    forall i, j | 0 <= i < j < |r| ensures IdsOf(r)[i] != IdsOf(r)[j] {
      assert r[i] in r && r[j] in r && r[i] in w && r[j] in w;
    }
    forall id ensures id in IdsOf(r) <==> IsWanted(s, id, jobType, queueName) {
      RankedIffWanted(s, jobType, queueName, id);
    }
  }

  /** A wanted job that is left out comes no earlier than any that is returned. */
  lemma NothingBetterLeftOut(s: Store, limit: int, jobType: Option<Id>, queueName: Option<Id>, id: Id, k: Id)
    requires ValidStore(s) && id in Dequeue(s, limit, jobType, queueName)
    requires k !in Dequeue(s, limit, jobType, queueName) && IsWanted(s, k, jobType, queueName)
    ensures id in s.jobs && Precedes(EntryOf(s, id), EntryOf(s, k))
  {
    RankingIsExact(s, jobType, queueName);
    var all, r := Ranking(s, jobType, queueName), Dequeue(s, limit, jobType, queueName);
    var i :| 0 <= i < |r| && r[i] == id;
    var j :| 0 <= j < |all| && IdsOf(all)[j] == k;
    assert j >= |r|;
    assert all[i] in all && all[j] in all && all[i].id == id && all[j].id == k;
    assert Precedes(all[i], all[j]);
  }

  /** What a caller may rely on: wanted jobs only, no repeats, nothing better passed over. */
  lemma DequeueIsBestFirst(s: Store, limit: int, jobType: Option<Id>, queueName: Option<Id>)
    requires ValidStore(s)
    ensures
      var r := Dequeue(s, limit, jobType, queueName);
      && Distinct(r)
      && (forall id :: id in r ==> IsWanted(s, id, jobType, queueName))
      && (forall i, j :: 0 <= i < j < |r| ==>
            r[i] in s.jobs && r[j] in s.jobs && Precedes(EntryOf(s, r[i]), EntryOf(s, r[j])))
      && (forall id, k :: id in r && k !in r && IsWanted(s, k, jobType, queueName) ==>
            Precedes(EntryOf(s, id), EntryOf(s, k)))
      && (limit >= |Ranking(s, jobType, queueName)| ==>
            forall id :: id in r <==> IsWanted(s, id, jobType, queueName))
  {
    RankingIsExact(s, jobType, queueName);
    var all := Ranking(s, jobType, queueName);
    var r := Dequeue(s, limit, jobType, queueName);
    assert forall i :: 0 <= i < |r| ==> r[i] == IdsOf(all)[i] && all[i] in all;
    forall id, k | id in r && k !in r && IsWanted(s, k, jobType, queueName)
      ensures Precedes(EntryOf(s, id), EntryOf(s, k))
    {
      NothingBetterLeftOut(s, limit, jobType, queueName, id, k);
    }
  }

  lemma PutKeepsValid(s: Store, id: Id, rec: JobRec)
    requires ValidStore(s)
    ensures ValidStore(Put(s, id, rec))
  {
    if id !in s.jobs {
      assert id !in Elems(s.order);
      assert Elems(s.order + [id]) == Elems(s.order) + {id};
    }
  }

  /** Releasing a job that was just claimed leaves every other job and the order as they were and
      makes it claimable again; it restores the job itself exactly when that named no claimant. */
  lemma ReleaseUndoesClaim(s: Store, id: Id, owner: Id)
    requires CanClaim(s, id)
    ensures
      var z := Requeue(Claim(s, id, owner), id);
      && z.jobs == s.jobs[id := s.jobs[id].(claimedBy := None)] && z.order == s.order
      && (z.jobs == s.jobs <==> s.jobs[id].claimedBy == None)
      && !CanClaim(Claim(s, id, owner), id) && CanClaim(z, id)
  {
    assert s.jobs[id := s.jobs[id]] == s.jobs;
    assert s.jobs[id := s.jobs[id].(claimedBy := None)][id].claimedBy == None;
  }

  // ---- The backend object ----

  class Job {
    const id: Id
    const jobType: Id
    const queueName: Id
    const priority: int
    const createdAt: int
    const dependsOn: seq<Id>
    const resources: Slots
    const source: Option<Id>
    var status: JobStatus
    var claimedBy: Option<Id>

    constructor (id: Id, rec: JobRec)
      ensures this.id == id && Rec() == rec
    {
      this.id := id;
      jobType, queueName, priority, createdAt := rec.jobType, rec.queueName, rec.priority, rec.createdAt;
      dependsOn, resources, source := rec.dependsOn, rec.resources, rec.source;
      status, claimedBy := rec.status, rec.claimedBy;
    }

    ghost function Rec(): JobRec
      reads this
    {
      JobRec(jobType, queueName, priority, createdAt, dependsOn, resources, source, status, claimedBy)
    }
  }

  class MemoryQueueBackend {
    var jobs: map<Id, Job>
    var order: seq<Id>
    ghost var log: seq<Write>

    constructor ()
      ensures Valid() && Contents() == EMPTY_STORE
      ensures jobs == map[]
    {
      jobs, order, log := map[], [], [];
    }

    ghost predicate Valid()
      reads this
    {
      && (forall id :: id in jobs ==> jobs[id].id == id)
      && Distinct(order) && Elems(order) == jobs.Keys
    }

    /** The object is the one stored under its own id. */
    ghost predicate Holds(job: Job)
      reads this
    {
      job.id in jobs && jobs[job.id] == job
    }

    /** The abstract value of the backend. */
    ghost function Contents(): Store
      reads this, jobs.Values
    {
      Store(map id | id in jobs :: jobs[id].Rec(), order, log)
    }

    method Enqueue(job: Job)
      requires Valid()
      modifies this
      ensures Valid() && jobs == old(jobs)[job.id := job]
      ensures Contents() == Put(old(Contents()), job.id, job.Rec())
    {
      if job.id !in jobs {
        assert job.id !in Elems(order);
        assert Elems(order + [job.id]) == Elems(order) + {job.id};
        order := order + [job.id];
      }
      jobs := jobs[job.id := job];
      assert Contents().jobs == old(Contents()).jobs[job.id := job.Rec()];
    }

    /** The filtering comprehension. */
    method FilterQueued(jobType: Option<Id>, queueName: Option<Id>) returns (queued: seq<Entry>)
      requires Valid()
      ensures queued == Wanted(Contents(), order, jobType, queueName)
    {
      queued := [];
      for i := 0 to |order|
        invariant queued == Wanted(Contents(), order[..i], jobType, queueName)
      {
        assert order[i] in Elems(order);
        var job := jobs[order[i]];
        assert Contents().jobs[order[i]] == job.Rec();
        WantedAppend(Contents(), order[..i], order[i], jobType, queueName);
        assert order[..i + 1] == order[..i] + [order[i]];
        if job.status == Queued && Matches(job.jobType, jobType) && Matches(job.queueName, queueName) {
          queued := queued + [Entry(job.id, job.priority, job.createdAt)];
        }
      }
      assert order[..|order|] == order;
    }

    /** Queued jobs passing the filters, best first, at most `limit` of them. */
    method DequeueJobs(limit: int, jobType: Option<Id>, queueName: Option<Id>) returns (r: seq<Job>)
      requires Valid()
      ensures |r| == |Dequeue(Contents(), limit, jobType, queueName)|
      ensures forall i :: 0 <= i < |r| ==>
                r[i].id == Dequeue(Contents(), limit, jobType, queueName)[i] && Holds(r[i])
    {
      var queued := FilterQueued(jobType, queueName);
      var ids := IdsOf(Prefix(SortBy(queued, Precedes), limit));
      DequeueIsBestFirst(Contents(), limit, jobType, queueName);
      forall i | 0 <= i < |ids| ensures ids[i] in jobs {
        assert ids[i] in ids;
        assert IsWanted(Contents(), ids[i], jobType, queueName);
      }
      var table := jobs;
      r := seq(|ids|, i requires 0 <= i < |ids| => table[ids[i]]);
    }

    method ClaimJob(id: Id, owner: Id) returns (ok: bool)
      requires Valid()
      modifies jobs.Values, `log
      ensures Valid() && jobs == old(jobs)
      ensures ok <==> CanClaim(old(Contents()), id)
      ensures Contents() == Claim(old(Contents()), id, owner)
    {
      if id !in jobs || jobs[id].status != Queued {
        return false;
      }
      var job := jobs[id];
      log := log + [Write(id, job.status, Running)];
      job.status := Running;
      job.claimedBy := Some(owner);
      return true;
    }

    method Release(id: Id) returns (ok: bool)
      requires Valid()
      modifies jobs.Values, `log
      ensures Valid() && jobs == old(jobs)
      ensures ok <==> id in jobs
      ensures Contents() == Requeue(old(Contents()), id)
    {
      if id !in jobs {
        return false;
      }
      var job := jobs[id];
      log := log + [Write(id, job.status, Queued)];
      job.status := Queued;
      job.claimedBy := None;
      return true;
    }

    method UpdateStatus(id: Id, status: JobStatus) returns (ok: bool)
      requires Valid()
      modifies jobs.Values, `log
      ensures Valid() && jobs == old(jobs)
      ensures ok <==> id in jobs
      ensures Contents() == SetStatus(old(Contents()), id, status)
    {
      if id !in jobs {
        return false;
      }
      var job := jobs[id];
      log := log + [Write(id, job.status, status)];
      job.status := status;
      return true;
    }
  }

  lemma {:induction false} WantedAppend(s: Store, ids: seq<Id>, id: Id, jobType: Option<Id>, queueName: Option<Id>)
    ensures Wanted(s, ids + [id], jobType, queueName) ==
            Wanted(s, ids, jobType, queueName)
            + if IsWanted(s, id, jobType, queueName) then [EntryOf(s, id)] else []
  {
    if ids == [] {
      assert ([id])[1..] == [];
    } else {
      assert (ids + [id])[1..] == ids[1..] + [id];
      WantedAppend(s, ids[1..], id, jobType, queueName);
    }
  }
  // ---- The dequeue, written out ----

  /** The queued jobs of the given type and queue, where one is given. */
  ghost function Eligible(s: Store, jobType: Option<Id>, queueName: Option<Id>): set<Id> {
    set id | id in s.jobs && s.jobs[id].status == Queued
             && (jobType.Some? ==> s.jobs[id].jobType == jobType.value)
             && (queueName.Some? ==> s.jobs[id].queueName == queueName.value)
  }

  /** Higher priority, or the same and no younger. */
  ghost predicate NoWorse(a: JobRec, b: JobRec) {
    a.priority > b.priority || (a.priority == b.priority && a.createdAt <= b.createdAt)
  }

  /** How many jobs come back: as many as asked for, all there are when fewer, and for a negative
      limit all but that many. */
  lemma DequeueSize(s: Store, limit: int, jobType: Option<Id>, queueName: Option<Id>)
    requires ValidStore(s)
    ensures
      var n := |Eligible(s, jobType, queueName)|;
      |Dequeue(s, limit, jobType, queueName)| ==
      if limit >= n then n else if limit >= 0 then limit else if n + limit > 0 then n + limit else 0
  {
    var ids := IdsOf(Ranking(s, jobType, queueName));
    RankingIsExact(s, jobType, queueName);
    DistinctLength(ids);
    forall id ensures id in Elems(ids) <==> id in Eligible(s, jobType, queueName) {
      assert id in ids <==> IsWanted(s, id, jobType, queueName);
    }
    assert Elems(ids) == Eligible(s, jobType, queueName);
  }

  /** Eligible jobs only, each once, best first, and none left out that is better than one returned. */
  lemma DequeueWrittenOut(s: Store, limit: int, jobType: Option<Id>, queueName: Option<Id>)
    requires ValidStore(s)
    ensures
      var r, all := Dequeue(s, limit, jobType, queueName), Eligible(s, jobType, queueName);
      && Distinct(r) && Elems(r) <= all
      && (forall i, j :: 0 <= i < j < |r| ==> r[i] in all && r[j] in all && NoWorse(s.jobs[r[i]], s.jobs[r[j]]))
      && (forall id, k :: id in r && k in all && k !in r ==> id in all && NoWorse(s.jobs[id], s.jobs[k]))
  {
    DequeueIsBestFirst(s, limit, jobType, queueName);
    var r := Dequeue(s, limit, jobType, queueName);
    forall i | 0 <= i < |r| ensures r[i] in Eligible(s, jobType, queueName) {
      assert r[i] in r && IsWanted(s, r[i], jobType, queueName);
    }
    forall id, k | id in r && k in Eligible(s, jobType, queueName) && k !in r
      ensures NoWorse(s.jobs[id], s.jobs[k])
    {
      assert IsWanted(s, id, jobType, queueName) && IsWanted(s, k, jobType, queueName);
      assert Precedes(EntryOf(s, id), EntryOf(s, k));
    }
    forall i, j | 0 <= i < j < |r| ensures NoWorse(s.jobs[r[i]], s.jobs[r[j]]) {
      assert Precedes(EntryOf(s, r[i]), EntryOf(s, r[j]));
    }
  }

  // ---- One job on its own ----

  datatype StoreOp =
    | PutOp(id: Id, rec: JobRec)
    | ClaimOp(id: Id, owner: Id)
    | ReleaseOp(id: Id)
    | StatusOp(id: Id, status: JobStatus)

  function ApplyOp(s: Store, op: StoreOp): Store {
    match op
    case PutOp(id, rec) => Put(s, id, rec)
    case ClaimOp(id, owner) => Claim(s, id, owner)
    case ReleaseOp(id) => Requeue(s, id)
    case StatusOp(id, status) => SetStatus(s, id, status)
  }

  function ApplyOps(s: Store, ops: seq<StoreOp>): Store
    decreases |ops|
  {
    if ops == [] then s else ApplyOps(ApplyOp(s, ops[0]), ops[1..])
  }

  function JobIn(s: Store, id: Id): Option<JobRec> {
    if id in s.jobs then Some(s.jobs[id]) else None
  }

  /** A single job as a machine of its own: steps that name another job pass it by, and so does
      every step but storing it while it is not there. */
  function StepAlone(job: Option<JobRec>, id: Id, op: StoreOp): Option<JobRec> {
    if op.id != id then job
    else
      match op
      case PutOp(_, rec) => Some(rec)
      case ClaimOp(_, owner) =>
        if job.Some? && job.value.status == Queued
        then Some(job.value.(status := Running, claimedBy := Some(owner))) else job
      case ReleaseOp(_) => if job == None then None else Some(job.value.(status := Queued, claimedBy := None))
      case StatusOp(_, status) => if job == None then None else Some(job.value.(status := status))
  }

  function RunAlone(job: Option<JobRec>, id: Id, ops: seq<StoreOp>): Option<JobRec>
    decreases |ops|
  {
    if ops == [] then job else RunAlone(StepAlone(job, id, ops[0]), id, ops[1..])
  }

  /** Jobs do not interfere: in every run of the backend's operations each job goes exactly as it
      would alone. */
  lemma {:induction false} EachJobRunsAlone(s: Store, ops: seq<StoreOp>, id: Id)
    ensures JobIn(ApplyOps(s, ops), id) == RunAlone(JobIn(s, id), id, ops)
    decreases |ops|
  {
    if ops != [] {
      EachJobRunsAlone(ApplyOp(s, ops[0]), ops[1..], id);
    }
  }
}
