/** Runs of the Redis steps: the index mirrors the hashes, leases protect running jobs, lapsed
    jobs come back, and claims are exclusive. */
module RedisRuns {
  import opened Basics
  import opened JobStates
  import opened Sorting
  import opened RedisBackend

  datatype Op =
    | EnqueueOp(id: Id, rec: JobHash)
    | ClaimOp(id: Id, owner: Id)
    | HeartbeatOp(id: Id)
    | ReleaseOp(id: Id)
    | UpdateOp(id: Id, status: JobStatus)
    | TickOp(d: nat)
    | ReapOp(scan: seq<Id>)

  function Apply(s: Redis, op: Op, ttl: int): Redis {
    match op
    case EnqueueOp(id, rec) => Enqueue(s, id, rec)
    case ClaimOp(id, owner) => Claim(s, id, owner, ttl)
    case HeartbeatOp(id) => Heartbeat(s, id, ttl)
    case ReleaseOp(id) => Release(s, id)
    case UpdateOp(id, status) => UpdateStatus(s, id, status)
    case TickOp(d) => Tick(s, d)
    case ReapOp(scan) => Reap(s, scan)
  }

  function ApplyAll(s: Redis, ops: seq<Op>, ttl: int): Redis
    decreases |ops|
  {
    if ops == [] then s else ApplyAll(Apply(s, ops[0], ttl), ops[1..], ttl)
  }

  // ---- The sorted set ----

  ghost predicate DistinctIds(z: seq<Scored>) {
    forall i, j :: 0 <= i < j < |z| ==> z[i].id != z[j].id
  }

  lemma {:induction false} InsertElems(x: Scored, z: seq<Scored>)
    ensures forall e :: e in Insert(x, z, Outranks) <==> e == x || e in z
    ensures DistinctIds(z) && (forall e :: e in z ==> e.id != x.id) ==> DistinctIds(Insert(x, z, Outranks))
  {
    if !(z == [] || Outranks(x, z[0])) {
      InsertElems(x, z[1..]);
      var r := Insert(x, z[1..], Outranks);
      if DistinctIds(z) && forall e :: e in z ==> e.id != x.id {
        forall j | 0 <= j < |r| ensures z[0].id != r[j].id {
          assert r[j] in r;
          if r[j] != x {
            var k :| 0 <= k < |z[1..]| && z[1..][k] == r[j];
            assert z[0].id != z[k + 1].id;
          }
        }
      }
    }
  }

  /** `ZADD`: the id's old entry gives way to the new one and no other entry changes. */
  lemma ZAddElems(z: seq<Scored>, id: Id, score: int)
    ensures forall e :: e in ZAdd(z, id, score) <==> e == Scored(id, score) || (e in z && e.id != id)
  {
    InsertElems(Scored(id, score), Without(z, id));
  }

  // ---- Reaping ----

  /** The lapsed jobs are indexed as of now, in place of whatever entries they had; the entries
      and stamps of all others are as they were. */
  ghost predicate ReindexedNow(s: Redis, z: Redis, lapsed: set<Id>)
    requires lapsed <= s.jobs.Keys
  {
    && (forall e: Scored :: e.id in lapsed ==> (e in z.index <==> e.score == Score(s.jobs[e.id].priority, s.now)))
    && (forall e: Scored :: e.id !in lapsed ==> (e in z.index <==> e in s.index))
    && (forall id :: id in lapsed ==> id in z.stamps && z.stamps[id] == s.now)
    && (forall id :: id !in lapsed ==> (id in z.stamps <==> id in s.stamps))
    && (forall id :: id !in lapsed && id in s.stamps ==> z.stamps[id] == s.stamps[id])
  }

  /** What one reap leaves behind: lapsed jobs queued, unclaimed, unleased and indexed; all else
      as it was. */
  ghost predicate AfterReap(s: Redis, z: Redis, lapsed: set<Id>) {
    && z.now == s.now && z.jobs.Keys == s.jobs.Keys && lapsed <= s.jobs.Keys
    && (forall id :: id in s.jobs ==>
          z.jobs[id] == if id in lapsed then s.jobs[id].(status := Queued, claimedBy := None) else s.jobs[id])
    && z.leases == s.leases - lapsed
    && ReindexedNow(s, z, lapsed)
  }

  ghost function LapsedIn(s: Redis, ids: set<Id>): set<Id> {
    set id | id in ids && Lapsed(s, id)
  }

  /** One key of the scan, then the rest. */
  lemma LapsedStep(s: Redis, id: Id, rest: seq<Id>)
    ensures LapsedIn(ReapOne(s, id), Elems(rest)) == LapsedIn(s, Elems(rest)) - {id}
    ensures LapsedIn(s, Elems([id] + rest)) ==
            LapsedIn(ReapOne(s, id), Elems(rest)) + if Lapsed(s, id) then {id} else {}
  {
    assert Elems([id] + rest) == {id} + Elems(rest);
  }

  lemma ReindexStep(s: Redis, id: Id, z: Redis, later: set<Id>)
    requires Lapsed(s, id) && id !in later && later <= s.jobs.Keys
    requires ReindexedNow(Release(s, id), z, later)
    ensures ReindexedNow(s, z, later + {id})
  {
    ZAddElems(s.index, id, Score(s.jobs[id].priority, s.now));
  }

  lemma ReapStep(s: Redis, id: Id, z: Redis, later: set<Id>)
    requires AfterReap(ReapOne(s, id), z, later) && id !in later
    ensures AfterReap(s, z, later + if Lapsed(s, id) then {id} else {})
  {
    if Lapsed(s, id) {
      assert s.leases - {id} - later == s.leases - (later + {id});
      ReindexStep(s, id, z, later);
    } else {
      assert later + {} == later;
    }
  }

  lemma {:induction false} ReapChanges(s: Redis, scan: seq<Id>)
    ensures AfterReap(s, Reap(s, scan), LapsedIn(s, Elems(scan)))
    decreases |scan|
  {
    if scan == [] {
      assert s.leases - {} == s.leases;
    } else {
      var id, rest, mid := scan[0], scan[1..], ReapOne(s, scan[0]);
      ReapChanges(mid, rest);
      assert scan == [id] + rest;
      LapsedStep(s, id, rest);
      ReapStep(s, id, Reap(mid, rest), LapsedIn(mid, Elems(rest)));
    }
  }

  lemma {:induction false} ReapReports(s: Redis, scan: seq<Id>)
    ensures Elems(Reaped(s, scan)) == LapsedIn(s, Elems(scan)) && Distinct(Reaped(s, scan))
    decreases |scan|
  {
    if scan != [] {
      var id, rest, mid := scan[0], scan[1..], ReapOne(s, scan[0]);
      ReapReports(mid, rest);
      assert scan == [id] + rest;
      LapsedStep(s, id, rest);
      if Lapsed(s, id) {
        assert Elems([id] + Reaped(mid, rest)) == {id} + Elems(Reaped(mid, rest));
        assert id !in Elems(Reaped(mid, rest));
      } else {
        assert [] + Reaped(mid, rest) == Reaped(mid, rest);
      }
    }
  }

  /** A reap pass, in whatever order and with whatever repetitions the scan yields keys, requeues
      and reindexes exactly the scanned running jobs without a lease, reports each once, and
      touches no other job, index entry, stamp or lease. */
  lemma ReapIsExact(s: Redis, scan: seq<Id>)
    ensures AfterReap(s, Reap(s, scan), LapsedIn(s, Elems(scan)))
    ensures Elems(Reaped(s, scan)) == LapsedIn(s, Elems(scan)) && Distinct(Reaped(s, scan))
  {
    ReapChanges(s, scan);
    ReapReports(s, scan);
  }

  // ---- The lease protocol ----

  /** The lease names the claimant recorded in the job, and no finished job has one. */
  ghost predicate OwnersAgree(s: Redis) {
    forall id :: id in s.leases ==>
      id in s.jobs && s.jobs[id].claimedBy == Some(s.leases[id].owner) && s.jobs[id].status !in TERMINAL_STATES
  }

  /** Job ids are fresh when enqueued. */
  ghost predicate FreshIds(s: Redis, ops: seq<Op>, ttl: int)
    decreases |ops|
  {
    ops == [] ||
    ((ops[0].EnqueueOp? ==> ops[0].id !in s.jobs) && FreshIds(Apply(s, ops[0], ttl), ops[1..], ttl))
  }

  lemma OpKeepsOwners(s: Redis, op: Op, ttl: int)
    requires OwnersAgree(s) && (op.EnqueueOp? ==> op.id !in s.jobs)
    ensures OwnersAgree(Apply(s, op, ttl))
  {
    if op.ReapOp? {
      ReapIsExact(s, op.scan);
    }
  }

  /** In every run with fresh ids a lease always carries the same owner as its job, and a job
      that reached a terminal state holds none. */
  lemma {:induction false} LeaseOwnerIsClaimant(s: Redis, ops: seq<Op>, ttl: int)
    requires OwnersAgree(s) && FreshIds(s, ops, ttl)
    ensures OwnersAgree(ApplyAll(s, ops, ttl))
    decreases |ops|
  {
    if ops != [] {
      OpKeepsOwners(s, ops[0], ttl);
      LeaseOwnerIsClaimant(Apply(s, ops[0], ttl), ops[1..], ttl);
    }
  }

  /** `owner` runs the job under a live lease. */
  ghost predicate Held(s: Redis, id: Id, owner: Id) {
    IsRunning(s, id) && HasLease(s, id) && s.jobs[id].claimedBy == Some(owner) && s.leases[id].owner == owner
  }

  /** The step is somebody writing the job's status or overwriting the job. */
  predicate WritesStatusOf(op: Op, id: Id) {
    (op.UpdateOp? || op.ReleaseOp? || op.EnqueueOp?) && op.id == id
  }

  /** What is left of a lease with `left` milliseconds to run, going by the step alone: time
      uses it up, a heartbeat of the job starts it afresh, nothing else matters. */
  function LeftAfter(op: Op, ttl: int, id: Id, left: int): int {
    match op
    case TickOp(d) => left - d
    case HeartbeatOp(k) => if k == id then ttl else left
    case _ => left
  }

  /** The steps beat in time: nobody writes the job's status, and a heartbeat always comes before
      the lease has run out. The state takes no part in it. */
  predicate BeatsInTime(ops: seq<Op>, ttl: int, id: Id, left: int)
    decreases |ops|
  {
    ops == [] ||
    (!WritesStatusOf(ops[0], id) && LeftAfter(ops[0], ttl, id, left) > 0
     && BeatsInTime(ops[1..], ttl, id, LeftAfter(ops[0], ttl, id, left)))
  }

  /** The job has a lease after every step of the run. */
  ghost predicate LeasedThroughout(s: Redis, ops: seq<Op>, ttl: int, id: Id)
    decreases |ops|
  {
    ops == [] || (HasLease(Apply(s, ops[0], ttl), id) && LeasedThroughout(Apply(s, ops[0], ttl), ops[1..], ttl, id))
  }

  /** No reap of the run reports the job. */
  ghost predicate NeverReaped(s: Redis, ops: seq<Op>, ttl: int, id: Id)
    decreases |ops|
  {
    ops == [] ||
    ((ops[0].ReapOp? ==> id !in Reaped(s, ops[0].scan)) && NeverReaped(Apply(s, ops[0], ttl), ops[1..], ttl, id))
  }

  function LeaseLeft(s: Redis, id: Id): int {
    if id in s.leases then s.leases[id].expires - s.now else 0
  }

  lemma OpKeepsHeld(s: Redis, op: Op, ttl: int, id: Id, owner: Id)
    requires Held(s, id, owner) && !WritesStatusOf(op, id) && HasLease(Apply(s, op, ttl), id)
    ensures Held(Apply(s, op, ttl), id, owner)
    ensures op.ReapOp? ==> id !in Reaped(s, op.scan)
    ensures op.ClaimOp? && op.id == id ==> Apply(s, op, ttl) == s
  {
    if op.ReapOp? {
      ReapIsExact(s, op.scan);
      assert id !in LapsedIn(s, Elems(op.scan));
      assert id !in Elems(Reaped(s, op.scan));
    }
  }

  /** The clock is the only way to lose a lease nobody deletes: a step that is not a tick keeps
      it, and a tick keeps it exactly while it stays before the expiry. */
  lemma LeaseLostOnlyByTime(s: Redis, op: Op, ttl: int, id: Id, owner: Id)
    requires Held(s, id, owner) && !WritesStatusOf(op, id) && ttl > 0
    ensures HasLease(Apply(s, op, ttl), id) <==> (op.TickOp? ==> s.now + op.d < s.leases[id].expires)
  {
    if op.ReapOp? {
      ReapIsExact(s, op.scan);
    }
  }

  /** A successful claim, and every heartbeat of a held job, buys exactly the lease time. */
  lemma LeaseLastsItsTime(s: Redis, id: Id, owner: Id, ttl: int, d: nat)
    requires ttl > 0 && (IsQueued(s, id) || Held(s, id, owner))
    ensures
      var z := if IsQueued(s, id) then Claim(s, id, owner, ttl) else Heartbeat(s, id, ttl);
      Held(z, id, owner) && (Held(Tick(z, d), id, owner) <==> d < ttl)
  {
  }

  /** A step nobody writes the status in keeps the job held exactly while lease time is left,
      and leaves exactly the time the step itself tells. */
  lemma HeldWhileTimeIsLeft(s: Redis, op: Op, ttl: int, id: Id, owner: Id)
    requires Held(s, id, owner) && !WritesStatusOf(op, id) && ttl > 0
    ensures HasLease(Apply(s, op, ttl), id) <==> LeftAfter(op, ttl, id, LeaseLeft(s, id)) > 0
    ensures LeaseLeft(Apply(s, op, ttl), id) == LeftAfter(op, ttl, id, LeaseLeft(s, id))
  {
    LeaseLostOnlyByTime(s, op, ttl, id, owner);
    if op.ReapOp? {
      ReapIsExact(s, op.scan);
    }
  }

  /** Lease safety: while heartbeats come before the lease runs out and nobody else writes the
      status, through any interleaving of other workers' claims, heartbeats and reaps the job
      stays running with its claimant. */
  lemma {:induction false} HeldThroughout(s: Redis, ops: seq<Op>, ttl: int, id: Id, owner: Id)
    requires Held(s, id, owner) && ttl > 0 && BeatsInTime(ops, ttl, id, LeaseLeft(s, id))
    ensures Held(ApplyAll(s, ops, ttl), id, owner)
    decreases |ops|
  {
    if ops != [] {
      HeldWhileTimeIsLeft(s, ops[0], ttl, id, owner);
      OpKeepsHeld(s, ops[0], ttl, id, owner);
      HeldThroughout(Apply(s, ops[0], ttl), ops[1..], ttl, id, owner);
    }
  }

  /** ... and no reap in that run reports it. */
  lemma {:induction false} NeverReapedWhileHeld(s: Redis, ops: seq<Op>, ttl: int, id: Id, owner: Id)
    requires Held(s, id, owner) && ttl > 0 && BeatsInTime(ops, ttl, id, LeaseLeft(s, id))
    ensures NeverReaped(s, ops, ttl, id)
    decreases |ops|
  {
    if ops != [] {
      HeldWhileTimeIsLeft(s, ops[0], ttl, id, owner);
      OpKeepsHeld(s, ops[0], ttl, id, owner);
      NeverReapedWhileHeld(Apply(s, ops[0], ttl), ops[1..], ttl, id, owner);
    }
  }

  /** The schedule is exact: when nobody writes the job's status, it has its lease after every
      step if and only if the heartbeats come in time. */
  lemma {:induction false} LeasedIffBeatsInTime(s: Redis, ops: seq<Op>, ttl: int, id: Id, owner: Id)
    requires Held(s, id, owner) && ttl > 0
    requires forall op :: op in ops ==> !WritesStatusOf(op, id)
    ensures LeasedThroughout(s, ops, ttl, id) <==> BeatsInTime(ops, ttl, id, LeaseLeft(s, id))
    decreases |ops|
  {
    if ops != [] {
      assert ops[0] in ops;
      HeldWhileTimeIsLeft(s, ops[0], ttl, id, owner);
      if HasLease(Apply(s, ops[0], ttl), id) {
        OpKeepsHeld(s, ops[0], ttl, id, owner);
        LeasedIffBeatsInTime(Apply(s, ops[0], ttl), ops[1..], ttl, id, owner);
      }
    }
  }

  /** A missed beat costs the job: once the lease time has passed without one, the next reap
      requeues the job while its worker is still at it. */
  lemma MissedBeatIsReaped(s: Redis, id: Id, owner: Id, ttl: int, d: nat, scan: seq<Id>)
    requires Held(s, id, owner) && d >= LeaseLeft(s, id) && id in scan
    ensures id in Reaped(Tick(s, d), scan) && IsQueued(Reap(Tick(s, d), scan), id)
  {
    ReapIsExact(Tick(s, d), scan);
    assert id in LapsedIn(Tick(s, d), Elems(scan));
    assert id in Elems(Reaped(Tick(s, d), scan));
  }

  /** From the claim on: a claim won, then beats in time, and the job is still the claimant's. */
  lemma ClaimThenBeats(s: Redis, ops: seq<Op>, ttl: int, id: Id, owner: Id)
    requires IsQueued(s, id) && ttl > 0 && BeatsInTime(ops, ttl, id, ttl)
    ensures Held(ApplyAll(Claim(s, id, owner, ttl), ops, ttl), id, owner)
    ensures NeverReaped(Claim(s, id, owner, ttl), ops, ttl, id)
  {
    LeaseLastsItsTime(s, id, owner, ttl, 0);
    HeldThroughout(Claim(s, id, owner, ttl), ops, ttl, id, owner);
    NeverReapedWhileHeld(Claim(s, id, owner, ttl), ops, ttl, id, owner);
  }

  lemma OpKeepsLapsed(s: Redis, op: Op, ttl: int, id: Id)
    requires Lapsed(s, id) && !WritesStatusOf(op, id) && (op.ReapOp? ==> id !in op.scan)
    ensures Lapsed(Apply(s, op, ttl), id)
  {
    if op.ReapOp? {
      ReapIsExact(s, op.scan);
    }
  }

  /** A lapsed lease is not revived: whatever heartbeats, claims, ticks and reaps of other jobs
      follow, the job stays lapsed until somebody writes its status or a reap scans it; and the
      first reap that does requeues and reports it. */
  lemma {:induction false} LapsedUntilReaped(s: Redis, ops: seq<Op>, ttl: int, id: Id)
    requires Lapsed(s, id)
    requires forall op :: op in ops ==> !WritesStatusOf(op, id) && (op.ReapOp? ==> id !in op.scan)
    ensures
      var z := ApplyAll(s, ops, ttl);
      && Lapsed(z, id)
      && forall scan :: id in scan ==> id in Reaped(z, scan) && IsQueued(Reap(z, scan), id)
    decreases |ops|
  {
    if ops == [] {
      forall scan | id in scan ensures id in Reaped(s, scan) && IsQueued(Reap(s, scan), id) {
        ReapIsExact(s, scan);
        assert id in Elems(Reaped(s, scan));
      }
    } else {
      assert ops[0] in ops;
      OpKeepsLapsed(s, ops[0], ttl, id);
      LapsedUntilReaped(Apply(s, ops[0], ttl), ops[1..], ttl, id);
    }
  }

  // ---- The index ----

  /** The sorted set holds exactly the queued jobs, each under the score of its priority and the
      moment it was last queued, in rank order. */
  ghost predicate IndexExact(s: Redis) {
    && Sorted(s.index, Outranks)
    && DistinctIds(s.index)
    && (forall e :: e in s.index ==>
          (IsQueued(s, e.id) && e.id in s.stamps && e.score == Score(s.jobs[e.id].priority, s.stamps[e.id])))
    && (forall id :: IsQueued(s, id) ==>
          id in s.stamps && Scored(id, Score(s.jobs[id].priority, s.stamps[id])) in s.index)
  }

  lemma {:induction false} StrLeqTotal(a: string, b: string)
    ensures StrLeq(a, b) || StrLeq(b, a)
    ensures StrLeq(a, b) && StrLeq(b, a) ==> a == b
  {
    if a != "" && b != "" {
      StrLeqTotal(a[1..], b[1..]);
      assert a == [a[0]] + a[1..] && b == [b[0]] + b[1..];
    }
  }

  lemma {:induction false} StrLeqTransitive(a: string, b: string, c: string)
    requires StrLeq(a, b) && StrLeq(b, c)
    ensures StrLeq(a, c)
  {
    if a != "" && b != "" && c != "" && a[0] == b[0] == c[0] {
      StrLeqTransitive(a[1..], b[1..], c[1..]);
    }
  }

  lemma OutranksIsTotal()
    ensures TotalPreorder(Outranks)
    ensures forall a, b :: Outranks(a, b) && Outranks(b, a) ==> a == b
  {
    forall a: Scored, b: Scored
      ensures Outranks(a, b) || Outranks(b, a)
      ensures Outranks(a, b) && Outranks(b, a) ==> a == b
    {
      StrLeqTotal(a.id, b.id);
    }
    forall a: Scored, b: Scored, c: Scored | Outranks(a, b) && Outranks(b, c) ensures Outranks(a, c) {
      if a.score == b.score == c.score {
        StrLeqTransitive(c.id, b.id, a.id);
      }
    }
  }

  lemma {:induction false} WithoutKeepsRank(z: seq<Scored>, id: Id)
    requires Sorted(z, Outranks) && DistinctIds(z)
    ensures Sorted(Without(z, id), Outranks) && DistinctIds(Without(z, id))
  {
    if z != [] {
      WithoutKeepsRank(z[1..], id);
      var r := Without(z[1..], id);
      forall j | 0 <= j < |r| ensures Outranks(z[0], r[j]) && z[0].id != r[j].id {
        assert r[j] in r;
        var k :| 0 <= k < |z[1..]| && z[1..][k] == r[j];
        assert z[k + 1] == r[j];
      }
    }
  }

  lemma ZAddKeepsRank(z: seq<Scored>, id: Id, score: int)
    requires Sorted(z, Outranks) && DistinctIds(z)
    ensures Sorted(ZAdd(z, id, score), Outranks) && DistinctIds(ZAdd(z, id, score))
    ensures forall e :: e in ZAdd(z, id, score) <==> e == Scored(id, score) || (e in z && e.id != id)
  {
    OutranksIsTotal();
    ZAddElems(z, id, score);
    WithoutKeepsRank(z, id);
    InsertElems(Scored(id, score), Without(z, id));
    InsertKeepsSorted(Scored(id, score), Without(z, id), Outranks);
  }

  lemma ReleaseKeepsIndex(s: Redis, id: Id)
    requires IndexExact(s)
    ensures IndexExact(Release(s, id))
  {
    if id in s.jobs {
      ZAddKeepsRank(s.index, id, Score(s.jobs[id].priority, s.now));
    }
  }

  lemma {:induction false} ReapKeepsIndex(s: Redis, scan: seq<Id>)
    requires IndexExact(s)
    ensures IndexExact(Reap(s, scan))
    decreases |scan|
  {
    if scan != [] {
      ReleaseKeepsIndex(s, scan[0]);
      ReapKeepsIndex(ReapOne(s, scan[0]), scan[1..]);
    }
  }

  lemma UnindexKeepsIndex(s: Redis, id: Id, status: JobStatus)
    requires IndexExact(s) && status != Queued
    ensures IndexExact(UpdateStatus(s, id, status))
  {
    WithoutKeepsRank(s.index, id);
  }

  /** `update_status` keeps the index exact exactly when it does not move a job that was not
      queued to queued: that job is then queued but never indexed. */
  lemma UpdateKeepsIndexIff(s: Redis, id: Id, status: JobStatus)
    requires IndexExact(s)
    ensures IndexExact(UpdateStatus(s, id, status)) <==>
            !(id in s.jobs && s.jobs[id].status != Queued && status == Queued)
  {
    if status != Queued {
      UnindexKeepsIndex(s, id, status);
    } else if id in s.jobs && s.jobs[id].status != Queued {
      assert IsQueued(UpdateStatus(s, id, status), id);
      assert forall e :: e in s.index ==> e.id != id;
    }
  }

  lemma WithoutAbsent(z: seq<Scored>, id: Id)
    requires forall e :: e in z ==> e.id != id
    ensures Without(z, id) == z
  {
    if z != [] {
      assert z[0] in z;
      WithoutAbsent(z[1..], id);
    }
  }

  /** A job taken back by `update_status` is queued, and no dequeue can find it. */
  lemma TakenBackIsNotIndexed(ttl: int)
    ensures
      var ops := [EnqueueOp("a", JobHash("t", "q", 0, Queued, None)), ClaimOp("a", "w"), UpdateOp("a", Queued)];
      var z := ApplyAll(EMPTY_REDIS, ops, ttl);
      IsQueued(z, "a") && z.index == [] && !IndexExact(z) && Dequeue(z, 10, None, None) == []
  {
    var enqueue, claim, update := EnqueueOp("a", JobHash("t", "q", 0, Queued, None)), ClaimOp("a", "w"),
                                  UpdateOp("a", Queued);
    var ops := [enqueue, claim, update];
    var s1 := Apply(EMPTY_REDIS, enqueue, ttl);
    assert s1.index == [Scored("a", Score(0, 0))];
    assert s1.index[1..] == [];
    var s2 := Apply(s1, claim, ttl);
    assert s2.index == [];
    var z := Apply(s2, update, ttl);
    assert ops[1..] == [claim, update] && [claim, update][1..] == [update] && [update][1..] == [];
    assert ApplyAll(s2, [update], ttl) == ApplyAll(z, [], ttl) == z;
    assert ApplyAll(s1, [claim, update], ttl) == ApplyAll(s2, [update], ttl);
    assert IsQueued(z, "a");
  }

  lemma QueuedEnqueueKeepsIndex(s: Redis, id: Id, rec: JobHash)
    requires IndexExact(s) && rec.status == Queued
    ensures IndexExact(Enqueue(s, id, rec))
  {
    ZAddKeepsRank(s.index, id, Score(rec.priority, s.now));
  }

  /** `enqueue` always indexes, so it keeps the index exact exactly when the job comes in queued. */
  lemma EnqueueKeepsIndexIff(s: Redis, id: Id, rec: JobHash)
    requires IndexExact(s)
    ensures IndexExact(Enqueue(s, id, rec)) <==> rec.status == Queued
  {
    if rec.status == Queued {
      QueuedEnqueueKeepsIndex(s, id, rec);
    } else {
      ZAddKeepsRank(s.index, id, Score(rec.priority, s.now));
      assert Scored(id, Score(rec.priority, s.now)) in Enqueue(s, id, rec).index;
    }
  }

  lemma ClaimKeepsIndex(s: Redis, id: Id, owner: Id, ttl: int)
    requires IndexExact(s)
    ensures IndexExact(Claim(s, id, owner, ttl))
  {
    WithoutKeepsRank(s.index, id);
  }

  /** Every step keeps the index's promise in the state it meets. */
  ghost predicate IndexSafe(s: Redis, ops: seq<Op>, ttl: int)
    decreases |ops|
  {
    ops == [] ||
    ((ops[0].EnqueueOp? ==> ops[0].rec.status == Queued)
     && (ops[0].UpdateOp? ==> !(ops[0].id in s.jobs && s.jobs[ops[0].id].status != Queued && ops[0].status == Queued))
     && IndexSafe(Apply(s, ops[0], ttl), ops[1..], ttl))
  }

  /** In every such run the sorted set holds exactly the queued jobs. */
  lemma {:induction false} IndexStaysExact(s: Redis, ops: seq<Op>, ttl: int)
    requires IndexExact(s) && IndexSafe(s, ops, ttl)
    ensures IndexExact(ApplyAll(s, ops, ttl))
    decreases |ops|
  {
    if ops != [] {
      match ops[0] {
        case EnqueueOp(id, rec) => EnqueueKeepsIndexIff(s, id, rec);
        case ClaimOp(id, owner) => ClaimKeepsIndex(s, id, owner, ttl);
        case ReleaseOp(id) => ReleaseKeepsIndex(s, id);
        case UpdateOp(id, status) => UpdateKeepsIndexIff(s, id, status);
        case ReapOp(scan) => ReapKeepsIndex(s, scan);
        case _ =>
      }
      IndexStaysExact(Apply(s, ops[0], ttl), ops[1..], ttl);
    }
  }

  /** A requeued job is back in the index and can be claimed. */
  lemma ReapedJobsAreClaimable(s: Redis, scan: seq<Id>, id: Id, owner: Id, ttl: int)
    requires IndexExact(s) && Elems(scan) == s.jobs.Keys && Lapsed(s, id)
    ensures
      var z := Reap(s, scan);
      && IndexExact(z) && (exists e :: e in z.index && e.id == id)
      && z.jobs[id].claimedBy == None && !HasLease(z, id)
      && IsRunning(Claim(z, id, owner, ttl), id)
  {
    ReapIsExact(s, scan);
    ReapKeepsIndex(s, scan);
    var z := Reap(s, scan);
    assert id in LapsedIn(s, Elems(scan));
    assert Scored(id, Score(z.jobs[id].priority, z.stamps[id])) in z.index;
  }

  lemma EmptyRedisIsGood()
    ensures IndexExact(EMPTY_REDIS) && OwnersAgree(EMPTY_REDIS)
  {
  }

  // ---- Claim exclusivity ----

  function Bit(b: bool): nat {
    if b then 1 else 0
  }

  /** Successful claims of `id` in the run. */
  function Claims(s: Redis, ops: seq<Op>, ttl: int, id: Id): nat
    decreases |ops|
  {
    if ops == [] then 0
    else Bit(ops[0].ClaimOp? && ops[0].id == id && IsQueued(s, id)) + Claims(Apply(s, ops[0], ttl), ops[1..], ttl, id)
  }

  /** Times `id` became queued in the run. */
  function Queuings(s: Redis, ops: seq<Op>, ttl: int, id: Id): nat
    decreases |ops|
  {
    if ops == [] then 0
    else
      var z := Apply(s, ops[0], ttl);
      Bit(!IsQueued(s, id) && IsQueued(z, id)) + Queuings(z, ops[1..], ttl, id)
  }

  /** In every run whatsoever each successful claim uses up one entry into the queue. */
  lemma {:induction false} ClaimsUseUpQueuings(s: Redis, ops: seq<Op>, ttl: int, id: Id)
    ensures Claims(s, ops, ttl, id) + Bit(IsQueued(ApplyAll(s, ops, ttl), id))
            <= Bit(IsQueued(s, id)) + Queuings(s, ops, ttl, id)
    decreases |ops|
  {
    if ops != [] {
      ClaimsUseUpQueuings(Apply(s, ops[0], ttl), ops[1..], ttl, id);
    }
  }

  /** Between two successful claims of a job it was queued again. */
  lemma TwoClaimsNeedARequeue(s: Redis, first: Op, between: seq<Op>, ttl: int, id: Id)
    requires first.ClaimOp? && first.id == id && IsQueued(s, id)
    requires IsQueued(ApplyAll(Apply(s, first, ttl), between, ttl), id)
    ensures Queuings(Apply(s, first, ttl), between, ttl, id) >= 1
  {
    ClaimsUseUpQueuings(Apply(s, first, ttl), between, ttl, id);
  }
}
