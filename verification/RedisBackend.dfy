/** The Redis backend as atomic steps over three structures: the job hashes, the sorted-set index
    of queued jobs, and the lease keys that expire. */
module RedisBackend {
  import opened Basics
  import opened JobStates
  import opened Sorting

  datatype JobHash = JobHash(jobType: Id, queueName: Id, priority: int, status: JobStatus, claimedBy: Option<Id>)

  datatype Lease = Lease(owner: Id, expires: int)

  datatype Scored = Scored(id: Id, score: int)

  /** `stamps` remembers when each job was last put into the index; it is history, not stored data.
      Times are in milliseconds. */
  datatype Redis = Redis(jobs: map<Id, JobHash>, index: seq<Scored>, leases: map<Id, Lease>,
                         now: int, stamps: map<Id, int>)

  const EMPTY_REDIS := Redis(map[], [], map[], 0, map[])

  const PRIORITY_UNIT: int := 10_000_000_000

  /** Priority and age packed into one integer. */
  function Score(priority: int, at: int): int {
    priority * PRIORITY_UNIT - at
  }

  // ---- The sorted set ----

  predicate StrLeq(a: string, b: string) {
    a == "" || (b != "" && (a[0] < b[0] || (a[0] == b[0] && StrLeq(a[1..], b[1..]))))
  }

  /** Reverse range order: higher score first, equal scores by descending member. */
  predicate Outranks(a: Scored, b: Scored) {
    a.score > b.score || (a.score == b.score && StrLeq(b.id, a.id))
  }

  function Without(z: seq<Scored>, id: Id): (r: seq<Scored>)
    ensures forall e :: e in r <==> e in z && e.id != id
  {
    if z == [] then []
    else (if z[0].id == id then [] else [z[0]]) + Without(z[1..], id)
  }

  function ZAdd(z: seq<Scored>, id: Id, score: int): seq<Scored> {
    Insert(Scored(id, score), Without(z, id), Outranks)
  }

  // ---- The steps ----

  const TERMINAL_STATES: set<JobStatus> := {Succeeded, Failed, Cancelled, TtlExpired, DeadLettered}

  predicate HasLease(s: Redis, id: Id) {
    id in s.leases && s.now < s.leases[id].expires
  }

  predicate IsQueued(s: Redis, id: Id) {
    id in s.jobs && s.jobs[id].status == Queued
  }

  predicate IsRunning(s: Redis, id: Id) {
    id in s.jobs && s.jobs[id].status == Running
  }

  /** Running with no lease left. */
  predicate Lapsed(s: Redis, id: Id) {
    IsRunning(s, id) && !HasLease(s, id)
  }

  function AddToIndex(s: Redis, id: Id, priority: int): Redis {
    s.(index := ZAdd(s.index, id, Score(priority, s.now)), stamps := s.stamps[id := s.now])
  }

  function Enqueue(s: Redis, id: Id, rec: JobHash): Redis {
    AddToIndex(s.(jobs := s.jobs[id := rec]), id, rec.priority)
  }

  /** The claim script: check, set, unindex, lease. */
  function Claim(s: Redis, id: Id, owner: Id, ttl: int): Redis {
    if IsQueued(s, id) then
      s.(jobs := s.jobs[id := s.jobs[id].(status := Running, claimedBy := Some(owner))],
         index := Without(s.index, id), leases := s.leases[id := Lease(owner, s.now + ttl)])
    else s
  }

  /** The heartbeat script: extending a key that is gone does nothing. */
  function Heartbeat(s: Redis, id: Id, ttl: int): Redis {
    if IsRunning(s, id) && HasLease(s, id)
    then s.(leases := s.leases[id := s.leases[id].(expires := s.now + ttl)]) else s
  }

  function Release(s: Redis, id: Id): Redis {
    if id in s.jobs then
      AddToIndex(s.(jobs := s.jobs[id := s.jobs[id].(status := Queued, claimedBy := None)], leases := s.leases - {id}),
                 id, s.jobs[id].priority)
    else s
  }

  function UpdateStatus(s: Redis, id: Id, status: JobStatus): Redis {
    if id in s.jobs then
      s.(jobs := s.jobs[id := s.jobs[id].(status := status)],
         index := if status != Queued then Without(s.index, id) else s.index,
         leases := if status in TERMINAL_STATES then s.leases - {id} else s.leases)
    else s
  }

  function Tick(s: Redis, d: nat): Redis {
    s.(now := s.now + d)
  }

  function ReapOne(s: Redis, id: Id): Redis {
    if Lapsed(s, id) then Release(s, id) else s
  }

  /** The reaper's pass over the keys a scan yields, in that order. */
  function Reap(s: Redis, scan: seq<Id>): Redis
    decreases |scan|
  {
    if scan == [] then s else Reap(ReapOne(s, scan[0]), scan[1..])
  }

  function Reaped(s: Redis, scan: seq<Id>): seq<Id>
    decreases |scan|
  {
    if scan == [] then []
    else (if Lapsed(s, scan[0]) then [scan[0]] else []) + Reaped(ReapOne(s, scan[0]), scan[1..])
  }

  predicate IsWanted(s: Redis, id: Id, jobType: Option<Id>, queueName: Option<Id>) {
    IsQueued(s, id) && Matches(s.jobs[id].jobType, jobType) && Matches(s.jobs[id].queueName, queueName)
  }

  function WantedIds(s: Redis, z: seq<Scored>, jobType: Option<Id>, queueName: Option<Id>): seq<Id> {
    if z == [] then []
    else (if IsWanted(s, z[0].id, jobType, queueName) then [z[0].id] else []) + WantedIds(s, z[1..], jobType, queueName)
  }

  function First<T>(s: seq<T>, n: int): seq<T> {
    if n <= 0 then [] else if n >= |s| then s else s[..n]
  }

  /** The index entries `dequeue` looks at: three per job asked for, and at least one. */
  function Window(z: seq<Scored>, limit: int): seq<Scored> {
    First(z, (if limit * 3 - 1 > 0 then limit * 3 - 1 else 0) + 1)
  }

  function Dequeue(s: Redis, limit: int, jobType: Option<Id>, queueName: Option<Id>): seq<Id> {
    First(WantedIds(s, Window(s.index, limit), jobType, queueName), limit)
  }

  // ---- The backend object ----

  class RedisQueueBackend {
    const leaseMs: int
    var jobs: map<Id, JobHash>
    var index: seq<Scored>
    var leases: map<Id, Lease>
    var now: int
    ghost var stamps: map<Id, int>

    /** A lease of zero or less is not a valid key expiry. */
    constructor (leaseMs: int)
      requires leaseMs > 0
      ensures State() == EMPTY_REDIS && this.leaseMs == leaseMs
    {
      this.leaseMs := leaseMs;
      jobs, index, leases, now, stamps := map[], [], map[], 0, map[];
    }

    ghost function State(): Redis
      reads this
    {
      Redis(jobs, index, leases, now, stamps)
    }

    method AdvanceClock(d: nat)
      modifies `now
      ensures State() == Tick(old(State()), d)
    {
      now := now + d;
    }

    method EnqueueJob(id: Id, rec: JobHash)
      modifies this
      ensures State() == Enqueue(old(State()), id, rec)
    {
      jobs := jobs[id := rec];
      index := ZAdd(index, id, rec.priority * 10_000_000_000 - now);
      stamps := stamps[id := now];
    }

    method ClaimJob(id: Id, owner: Id) returns (ok: bool)
      modifies this
      ensures ok <==> IsQueued(old(State()), id)
      ensures State() == Claim(old(State()), id, owner, leaseMs)
    {
      if id !in jobs || jobs[id].status != Queued {
        return false;
      }
      jobs := jobs[id := jobs[id].(status := Running, claimedBy := Some(owner))];
      index := Without(index, id);
      leases := leases[id := Lease(owner, now + leaseMs)];
      return true;
    }

    method HeartbeatJob(id: Id) returns (ok: bool)
      modifies this
      ensures ok <==> IsRunning(old(State()), id)
      ensures State() == Heartbeat(old(State()), id, leaseMs)
    {
      if id !in jobs || jobs[id].status != Running {
        return false;
      }
      if id in leases && now < leases[id].expires {
        leases := leases[id := Lease(leases[id].owner, now + leaseMs)];
      }
      return true;
    }

    method ReleaseJob(id: Id) returns (ok: bool)
      modifies this
      ensures ok <==> id in old(jobs)
      ensures State() == Release(old(State()), id)
    {
      if id !in jobs {
        return false;
      }
      jobs := jobs[id := jobs[id].(status := Queued, claimedBy := None)];
      index := ZAdd(index, id, jobs[id].priority * 10_000_000_000 - now);
      stamps := stamps[id := now];
      leases := leases - {id};
      return true;
    }

    method SetStatus(id: Id, status: JobStatus) returns (ok: bool)
      modifies this
      ensures ok <==> id in old(jobs)
      ensures State() == UpdateStatus(old(State()), id, status)
    {
      if id !in jobs {
        return false;
      }
      jobs := jobs[id := jobs[id].(status := status)];
      if status != Queued {
        index := Without(index, id);
      }
      if status in {Succeeded, Failed, Cancelled, TtlExpired, DeadLettered} {
        leases := leases - {id};
      }
      return true;
    }

    /** One pass over the job keys that a scan yields. */
    method ReapExpiredLeases(scan: seq<Id>) returns (reaped: seq<Id>)
      modifies this
      ensures State() == Reap(old(State()), scan)
      ensures reaped == Reaped(old(State()), scan)
    {
      reaped := [];
      ghost var s0 := State();
      for i := 0 to |scan|
        invariant Reap(State(), scan[i..]) == Reap(s0, scan)
        invariant reaped + Reaped(State(), scan[i..]) == Reaped(s0, scan)
      {
        var id := scan[i];
        assert scan[i..][0] == id && scan[i..][1..] == scan[i + 1..];
        ghost var before := State();
        if id in jobs && jobs[id].status == Running && !(id in leases && now < leases[id].expires) {
          var released := ReleaseJob(id);
          if released {
            reaped := reaped + [id];
          }
        }
        assert State() == ReapOne(before, id);
        assert Reaped(before, scan[i..]) == (if Lapsed(before, id) then [id] else []) + Reaped(State(), scan[i + 1..]);
      }
    }

    /** Walks the window of the index until enough jobs pass the filters. */
    method DequeueIds(limit: int, jobType: Option<Id>, queueName: Option<Id>) returns (r: seq<Id>)
      ensures r == Dequeue(State(), limit, jobType, queueName)
    {
      var window := Window(index, limit);
      r := [];
      for i := 0 to |window|
        invariant r == WantedIds(State(), window[..i], jobType, queueName)
        invariant i > 0 ==> |r| <= limit
      {
        WantedAppend(State(), window[..i], window[i], jobType, queueName);
        assert window[..i + 1] == window[..i] + [window[i]];
        if |r| >= limit {
          WantedSplit(State(), window, i, jobType, queueName);
          break;
        }
        var id := window[i].id;
        if id in jobs && jobs[id].status == Queued && Matches(jobs[id].jobType, jobType)
           && Matches(jobs[id].queueName, queueName) {
          r := r + [id];
        }
      }
      assert window[..|window|] == window;
    }
  }

  lemma {:induction false} WantedConcat(s: Redis, a: seq<Scored>, b: seq<Scored>, jobType: Option<Id>,
                                        queueName: Option<Id>)
    ensures WantedIds(s, a + b, jobType, queueName) ==
            WantedIds(s, a, jobType, queueName) + WantedIds(s, b, jobType, queueName)
  {
    if a == [] {
      assert a + b == b;
    } else {
      assert (a + b)[1..] == a[1..] + b;
      WantedConcat(s, a[1..], b, jobType, queueName);
    }
  }

  lemma WantedAppend(s: Redis, z: seq<Scored>, e: Scored, jobType: Option<Id>, queueName: Option<Id>)
    ensures WantedIds(s, z + [e], jobType, queueName) ==
            WantedIds(s, z, jobType, queueName) + if IsWanted(s, e.id, jobType, queueName) then [e.id] else []
  {
    WantedConcat(s, z, [e], jobType, queueName);
    assert [e][1..] == [];
  }

  lemma WantedSplit(s: Redis, z: seq<Scored>, i: nat, jobType: Option<Id>, queueName: Option<Id>)
    requires i <= |z|
    ensures WantedIds(s, z[..i], jobType, queueName) <= WantedIds(s, z, jobType, queueName)
  {
    assert z == z[..i] + z[i..];
    WantedConcat(s, z[..i], z[i..], jobType, queueName);
  }
}
