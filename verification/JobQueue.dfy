/** The submit facade: idempotency keys, then dependency registration, then the backend. */
module Submission {
  import opened Basics
  import opened JobStates
  import opened Graphs
  import opened DependencyTracking
  import opened MemoryBackend
  import R = ResourcePools

  // ---- Idempotency keys ----

  datatype KeyEntry = KeyEntry(jobId: Id, expires: real)
  type Keys = map<Id, KeyEntry>

  predicate IsLive(keys: Keys, key: Id, now: real) {
    key in keys && keys[key].expires > now
  }

  function Owner(keys: Keys, key: Id, id: Id, now: real): Id {
    if IsLive(keys, key, now) then keys[key].jobId else id
  }

  function Remember(ttl: int, keys: Keys, key: Id, id: Id, now: real): Keys {
    if IsLive(keys, key, now) then keys else keys[key := KeyEntry(id, now + ttl as real)]
  }

  class IdempotencyManager {
    const ttlSeconds: int
    var entries: Keys

    constructor (ttlSeconds: int)
      ensures this.ttlSeconds == ttlSeconds && entries == map[]
    {
      this.ttlSeconds := ttlSeconds;
      entries := map[];
    }

    method RegisterOrGet(key: Id, id: Id, now: real) returns (owner: Id)
      modifies this
      ensures owner == Owner(old(entries), key, id, now)
      ensures entries == Remember(ttlSeconds, old(entries), key, id, now)
    {
      if key in entries && entries[key].expires > now {
        return entries[key].jobId;
      }
      entries := entries[key := KeyEntry(id, now + ttlSeconds as real)];
      return id;
    }
  }

  // ---- Submit ----

  datatype Request = Request(jobType: Id, queueName: Id, priority: int, dependsOn: seq<Id>,
                             resources: R.Slots, key: Option<Id>)

  datatype SubmitResult = Returned(id: Id) | CycleRejected

  /** Everything a submit can touch. */
  datatype QueueState = QueueState(store: Store, keys: Keys, edges: Edges)

  const EMPTY_QUEUE := QueueState(EMPTY_STORE, map[], map[])

  /** One submit call: the request, the fresh id and creation stamp, and the clock. */
  datatype Submit = Submit(req: Request, id: Id, createdAt: int, now: real)

  /** An empty key counts as no key. */
  predicate HasKey(req: Request) {
    req.key.Some? && req.key.value != ""
  }

  function NewRec(req: Request, createdAt: int): JobRec {
    JobRec(req.jobType, req.queueName, req.priority, createdAt, req.dependsOn, req.resources, None, Queued, None)
  }

  predicate IsDuplicate(q: QueueState, op: Submit) {
    HasKey(op.req) && Owner(q.keys, op.req.key.value, op.id, op.now) != op.id
  }

  function KeysAfter(ttl: int, q: QueueState, op: Submit): Keys {
    if HasKey(op.req) then Remember(ttl, q.keys, op.req.key.value, op.id, op.now) else q.keys
  }

  ghost predicate IsRejected(tracked: bool, q: QueueState, op: Submit) {
    tracked && ClosesCycle(q.edges, op.id, op.req.dependsOn)
  }

  ghost function After(ttl: int, tracked: bool, q: QueueState, op: Submit): QueueState {
    var keys := KeysAfter(ttl, q, op);
    if IsDuplicate(q, op) then QueueState(q.store, keys, q.edges)
    else if IsRejected(tracked, q, op) then QueueState(q.store, keys, q.edges)
    else QueueState(Put(q.store, op.id, NewRec(op.req, op.createdAt)), keys,
                    if tracked && op.req.dependsOn != [] then q.edges[op.id := op.req.dependsOn] else q.edges)
  }

  ghost function ResultOf(tracked: bool, q: QueueState, op: Submit): SubmitResult {
    if IsDuplicate(q, op) then Returned(q.keys[op.req.key.value].jobId)
    else if IsRejected(tracked, q, op) then CycleRejected
    else Returned(op.id)
  }

  class JobQueue {
    const backend: MemoryQueueBackend
    const idempotency: IdempotencyManager
    const tracker: DependencyTracker?

    constructor (backend: MemoryQueueBackend, idempotency: IdempotencyManager, tracker: DependencyTracker?)
      ensures this.backend == backend && this.idempotency == idempotency && this.tracker == tracker
    {
      this.backend, this.idempotency, this.tracker := backend, idempotency, tracker;
    }

    ghost function View(): QueueState
      reads backend, backend.jobs.Values, idempotency, tracker
    {
      QueueState(backend.Contents(), idempotency.entries, EdgesOf(tracker))
    }

    method SubmitJob(req: Request, id: Id, createdAt: int, now: real) returns (r: SubmitResult)
      requires backend.Valid()
      modifies backend, idempotency, tracker
      ensures backend.Valid()
      ensures
        var op := Submit(req, id, createdAt, now);
        && r == ResultOf(tracker != null, old(View()), op)
        && View() == After(idempotency.ttlSeconds, tracker != null, old(View()), op)
    {
      ghost var q, op := View(), Submit(req, id, createdAt, now);
      var job := new Job(id, NewRec(req, createdAt));
      if req.key.Some? && req.key.value != "" {
        var prior := idempotency.RegisterOrGet(req.key.value, id, now);
        assert backend.Contents() == q.store;
        if prior != id {
          assert IsDuplicate(q, op);
          return Returned(prior);
        }
      }
      assert !IsDuplicate(q, op) && idempotency.entries == KeysAfter(idempotency.ttlSeconds, q, op);
      if tracker != null && req.dependsOn != [] {
        var verdict := tracker.ValidateAndRegister(id, req.dependsOn);
        assert backend.Contents() == q.store;
        if verdict == CycleError {
          assert IsRejected(tracker != null, q, op);
          return CycleRejected;
        }
      }
      assert !IsRejected(tracker != null, q, op);
      assert backend.Contents() == q.store && job.Rec() == NewRec(req, createdAt);
      backend.Enqueue(job);
      return Returned(id);
    }
  }

  // ---- Whole histories of submits ----

  /** An id nobody has stored, keyed, or named as a dependency. */
  ghost predicate IsFresh(q: QueueState, op: Submit) {
    && op.id !in q.store.jobs
    && op.id !in q.edges
    && op.id !in Graphs.Targets(WaitGraph(q.edges))
    && op.id !in op.req.dependsOn
    && (forall k :: k in q.keys ==> q.keys[k].jobId != op.id)
  }

  /** Nothing waits for a fresh job, so registering it cannot close a cycle. */
  lemma FreshIsNeverRejected(tracked: bool, q: QueueState, op: Submit)
    requires IsFresh(q, op)
    ensures !IsRejected(tracked, q, op)
  {
    if d :| d in op.req.dependsOn && Reaches(WaitGraph(q.edges), d, op.id) {
      var n: nat :| ReachIn(WaitGraph(q.edges), d, op.id, n);
      EndIsTarget(WaitGraph(q.edges), d, op.id, n);
    }
  }

  lemma {:induction false} EndIsTarget(g: Graph, x: Id, y: Id, n: nat)
    requires ReachIn(g, x, y, n)
    ensures x == y || y in Graphs.Targets(g)
    decreases n
  {
    if n > 0 {
      var z :| z in Succ(g, x) && ReachIn(g, z, y, n - 1);
      EndIsTarget(g, z, y, n - 1);
    }
  }

  /** Every remembered key names a stored job. */
  ghost predicate KeysBacked(q: QueueState) {
    forall k :: k in q.keys ==> q.keys[k].jobId in q.store.jobs
  }

  /** A submit keeps the keys backed exactly when it is not a keyed, non-duplicate request whose
      dependencies the tracker refuses: the key is remembered before the refusal. */
  lemma KeysStayBackedIff(ttl: int, tracked: bool, q: QueueState, op: Submit)
    requires KeysBacked(q) && op.id !in q.store.jobs
    ensures KeysBacked(After(ttl, tracked, q, op)) <==>
            !(HasKey(op.req) && !IsDuplicate(q, op) && IsRejected(tracked, q, op))
  {
    if HasKey(op.req) && !IsDuplicate(q, op) && IsRejected(tracked, q, op) {
      var z := After(ttl, tracked, q, op);
      assert IsLive(q.keys, op.req.key.value, op.now) ==> op.id in q.store.jobs;
      assert z.keys[op.req.key.value].jobId == op.id;
    }
  }

  /** A job that was stored under a key, and when. */
  datatype Acceptance = Acceptance(key: Id, id: Id, at: real)

  ghost function Accepted(tracked: bool, q: QueueState, op: Submit): seq<Acceptance> {
    if HasKey(op.req) && ResultOf(tracked, q, op) == Returned(op.id)
    then [Acceptance(op.req.key.value, op.id, op.now)] else []
  }

  /** The state reached, the acceptances in order, and the result of every call so far. */
  datatype History = History(q: QueueState, accepted: seq<Acceptance>, results: seq<SubmitResult>)

  ghost function Extend(ttl: int, tracked: bool, h: History, op: Submit): History {
    History(After(ttl, tracked, h.q, op), h.accepted + Accepted(tracked, h.q, op),
            h.results + [ResultOf(tracked, h.q, op)])
  }

  ghost function Replay(ttl: int, tracked: bool, h: History, ops: seq<Submit>): History
    decreases |ops|
  {
    if ops == [] then h else Replay(ttl, tracked, Extend(ttl, tracked, h, ops[0]), ops[1..])
  }

  /** The clock never runs back and each id is fresh when it is drawn. */
  ghost predicate IsHistory(ttl: int, tracked: bool, q: QueueState, from: real, ops: seq<Submit>)
    decreases |ops|
  {
    ops == [] ||
    (from <= ops[0].now && IsFresh(q, ops[0])
     && IsHistory(ttl, tracked, After(ttl, tracked, q, ops[0]), ops[0].now, ops[1..]))
  }

  /** Acceptances under one key lie at least the window apart, and the key's entry covers them. */
  ghost predicate Spaced(ttl: int, h: History, clock: real) {
    && (forall i :: 0 <= i < |h.accepted| ==> h.accepted[i].at <= clock)
    && (forall i, j :: 0 <= i < j < |h.accepted| && h.accepted[i].key == h.accepted[j].key ==>
          h.accepted[i].at + ttl as real <= h.accepted[j].at)
    && (forall i :: 0 <= i < |h.accepted| ==>
          h.accepted[i].key in h.q.keys && h.accepted[i].at + ttl as real <= h.q.keys[h.accepted[i].key].expires)
  }

  lemma SubmitKeepsSpacing(ttl: int, tracked: bool, h: History, clock: real, op: Submit)
    requires Spaced(ttl, h, clock) && IsFresh(h.q, op) && clock <= op.now
    ensures Spaced(ttl, Extend(ttl, tracked, h, op), op.now)
  {
    FreshIsNeverRejected(tracked, h.q, op);
    if HasKey(op.req) {
      var key := op.req.key.value;
      if !IsLive(h.q.keys, key, op.now) {
        forall i | 0 <= i < |h.accepted| && h.accepted[i].key == key
          ensures h.accepted[i].at + ttl as real <= op.now
        {
        }
      }
    }
  }

  /** Whatever a submit returns with backed keys and a fresh id, the backend holds it afterwards;
      a duplicate changes nothing, and a keyed request is one exactly while its key is live. */
  lemma ReturnedIdIsStored(ttl: int, tracked: bool, q: QueueState, op: Submit)
    requires KeysBacked(q) && IsFresh(q, op)
    ensures
      var r := ResultOf(tracked, q, op);
      r.Returned? && r.id in After(ttl, tracked, q, op).store.jobs
    ensures IsDuplicate(q, op) ==> After(ttl, tracked, q, op) == q
    ensures HasKey(op.req) ==> (IsDuplicate(q, op) <==> IsLive(q.keys, op.req.key.value, op.now))
  {
    FreshIsNeverRejected(tracked, q, op);
  }

  /** Every call so far returned the id of a job the backend holds. */
  ghost predicate ResultsBacked(h: History) {
    forall i :: 0 <= i < |h.results| ==> h.results[i].Returned? && h.results[i].id in h.q.store.jobs
  }

  function EndClock(from: real, ops: seq<Submit>): real {
    if ops == [] then from else ops[|ops| - 1].now
  }

  /** Over every history: jobs stored under one key are at least the window apart, and every
      call, deduplicated or not, returned the id of a job the backend holds. */
  lemma {:induction false} HistoriesDeduplicate(ttl: int, tracked: bool, h: History, from: real, ops: seq<Submit>)
    requires Spaced(ttl, h, from) && KeysBacked(h.q) && ResultsBacked(h)
    requires IsHistory(ttl, tracked, h.q, from, ops)
    ensures
      var z := Replay(ttl, tracked, h, ops);
      Spaced(ttl, z, EndClock(from, ops)) && KeysBacked(z.q) && ResultsBacked(z)
    decreases |ops|
  {
    if ops != [] {
      FreshIsNeverRejected(tracked, h.q, ops[0]);
      KeysStayBackedIff(ttl, tracked, h.q, ops[0]);
      SubmitKeepsSpacing(ttl, tracked, h, from, ops[0]);
      ReturnedIdIsStored(ttl, tracked, h.q, ops[0]);
      HistoriesDeduplicate(ttl, tracked, Extend(ttl, tracked, h, ops[0]), ops[0].now, ops[1..]);
    }
  }

  lemma EmptyHistoryIsGood(ttl: int, now: real)
    ensures
      var h := History(EMPTY_QUEUE, [], []);
      Spaced(ttl, h, now) && KeysBacked(h.q) && ResultsBacked(h)
  {
  }

  /** Over every history of submits to an empty queue: jobs stored under one key are at least the
      window apart, every remembered key names a stored job, and every call returned one. */
  lemma FromEmptyDeduplicates(ttl: int, tracked: bool, from: real, ops: seq<Submit>)
    requires IsHistory(ttl, tracked, EMPTY_QUEUE, from, ops)
    ensures
      var z := Replay(ttl, tracked, History(EMPTY_QUEUE, [], []), ops);
      Spaced(ttl, z, EndClock(from, ops)) && KeysBacked(z.q) && ResultsBacked(z)
  {
    EmptyHistoryIsGood(ttl, from);
    HistoriesDeduplicate(ttl, tracked, History(EMPTY_QUEUE, [], []), from, ops);
  }

  /** An id named as a dependency before it is drawn breaks the promise: the last submit below is
      answered with the id of a job that was refused and never stored. */
  lemma PhantomDuplicate(ttl: int)
    requires ttl > 0
    ensures
      var first := Submit(Request("t", "default", 0, ["b"], map[], None), "a", 0, 0.0);
      var refused := Submit(Request("t", "default", 0, ["a"], map[], Some("k")), "b", 1, 0.0);
      var again := Submit(Request("t", "default", 0, [], map[], Some("k")), "c", 2, 0.0);
      var q1 := After(ttl, true, EMPTY_QUEUE, first);
      var q2 := After(ttl, true, q1, refused);
      ResultOf(true, q1, refused) == CycleRejected
      && ResultOf(true, q2, again) == Returned("b") && "b" !in After(ttl, true, q2, again).store.jobs
  {
    var first := Submit(Request("t", "default", 0, ["b"], map[], None), "a", 0, 0.0);
    var refused := Submit(Request("t", "default", 0, ["a"], map[], Some("k")), "b", 1, 0.0);
    assert IsFresh(EMPTY_QUEUE, first);
    FreshIsNeverRejected(true, EMPTY_QUEUE, first);
    var q1 := After(ttl, true, EMPTY_QUEUE, first);
    var g := WaitGraph(q1.edges);
    assert "b" in q1.edges["a"];
    assert "b" in Succ(g, "a");
    assert ReachIn(g, "b", "b", 0);
    assert ReachIn(g, "a", "b", 1);
    assert "a" in refused.req.dependsOn;
    assert ClosesCycle(q1.edges, "b", ["a"]);
  }

  // ---- What submission establishes for scheduling ----

  /** The tracker's edges are the jobs' own dependency lists, every dependency is a stored job,
      and nothing waits in a circle. */
  ghost predicate WellSubmitted(st: Store, edges: Edges) {
    && ValidStore(st)
    && Acyclic(WaitGraph(edges))
    && (forall id :: id in edges ==> id in st.jobs)
    && (forall id :: id in st.jobs ==> Deps(edges, id) == st.jobs[id].dependsOn)
    && (forall id, d :: id in st.jobs && d in st.jobs[id].dependsOn ==> d in st.jobs)
  }

  /** Submitting through the tracker, each dependency naming a stored job, keeps it so. */
  lemma SubmitKeepsWellSubmitted(ttl: int, q: QueueState, op: Submit)
    requires WellSubmitted(q.store, q.edges) && IsFresh(q, op)
    requires forall d :: d in op.req.dependsOn ==> d in q.store.jobs
    ensures
      var z := After(ttl, true, q, op);
      WellSubmitted(z.store, z.edges)
  {
    if !IsDuplicate(q, op) {
      FreshIsNeverRejected(true, q, op);
      PutKeepsValid(q.store, op.id, NewRec(op.req, op.createdAt));
      RegisterKeepsAcyclicIff(q.edges, op.id, op.req.dependsOn);
    }
  }

  ghost predicate AllQueued(st: Store) {
    forall id :: id in st.jobs ==> st.jobs[id].status == Queued
  }

  /** Every request names only jobs already stored as its dependencies. */
  ghost predicate NamesStored(ttl: int, q: QueueState, ops: seq<Submit>)
    decreases |ops|
  {
    ops == [] ||
    ((forall d :: d in ops[0].req.dependsOn ==> d in q.store.jobs)
     && NamesStored(ttl, After(ttl, true, q, ops[0]), ops[1..]))
  }

  /** Over every history of submits through the tracker: all stored jobs are queued and well
      submitted, and there are no more of them than submits. */
  lemma {:induction false} HistoriesAreWellSubmitted(ttl: int, h: History, from: real, ops: seq<Submit>)
    requires WellSubmitted(h.q.store, h.q.edges) && AllQueued(h.q.store)
    requires IsHistory(ttl, true, h.q, from, ops) && NamesStored(ttl, h.q, ops)
    ensures
      var z := Replay(ttl, true, h, ops).q;
      WellSubmitted(z.store, z.edges) && AllQueued(z.store) && |z.store.jobs| <= |h.q.store.jobs| + |ops|
    decreases |ops|
  {
    if ops != [] {
      SubmitKeepsWellSubmitted(ttl, h.q, ops[0]);
      HistoriesAreWellSubmitted(ttl, Extend(ttl, true, h, ops[0]), ops[0].now, ops[1..]);
    }
  }

  lemma EmptyIsWellSubmitted()
    ensures WellSubmitted(EMPTY_QUEUE.store, EMPTY_QUEUE.edges) && AllQueued(EMPTY_QUEUE.store)
  {
    EmptyAcyclic();
    assert WaitGraph(map[]) == map[];
  }
  // ---- What the calls of a history leave and answer ----

  /** The stored job carries everything the request asked for, waits unclaimed and is nobody's
      dead letter. */
  ghost predicate StoredAsRequested(st: Store, op: Submit) {
    && op.id in st.jobs
    && st.jobs[op.id].jobType == op.req.jobType
    && st.jobs[op.id].queueName == op.req.queueName
    && st.jobs[op.id].priority == op.req.priority
    && st.jobs[op.id].createdAt == op.createdAt
    && st.jobs[op.id].dependsOn == op.req.dependsOn
    && st.jobs[op.id].resources == op.req.resources
    && st.jobs[op.id].source == None
    && st.jobs[op.id].status == Queued
    && st.jobs[op.id].claimedBy == None
  }

  /** Call `k` was accepted: it returned the id drawn for it. */
  ghost predicate IsAccepted(ops: seq<Submit>, results: seq<SubmitResult>, k: int) {
    0 <= k < |ops| && k < |results| && results[k] == Returned(ops[k].id)
  }

  /** Call `j` was accepted under a key and has not outlived the window at `now`. */
  ghost predicate StillAnswers(ttl: int, ops: seq<Submit>, results: seq<SubmitResult>, j: int, key: Id, now: real) {
    IsAccepted(ops, results, j) && ops[j].req.key == Some(key) && now < ops[j].now + ttl as real
  }

  /** Each call's answer: a request without a key, or with the empty one, is accepted; one with a
      key is answered with an accepted earlier call of that key still in its window, and accepted
      exactly when there is none. */
  ghost predicate AnsweredByKey(ttl: int, ops: seq<Submit>, results: seq<SubmitResult>, k: int)
    requires 0 <= k < |ops| && k < |results|
  {
    if ops[k].req.key == None || ops[k].req.key == Some("") then results[k] == Returned(ops[k].id)
    else if results[k] == Returned(ops[k].id) then
      forall j :: 0 <= j < k ==> !StillAnswers(ttl, ops, results, j, ops[k].req.key.value, ops[k].now)
    else
      exists j :: 0 <= j < k && StillAnswers(ttl, ops, results, j, ops[k].req.key.value, ops[k].now)
                  && results[k] == Returned(ops[j].id)
  }

  /** The jobs stored are those of the accepted calls, each as its request asked, and every call
      was answered by its key. */
  ghost predicate AsRequested(ttl: int, st: Store, ops: seq<Submit>, results: seq<SubmitResult>) {
    && |results| == |ops|
    && (forall k :: IsAccepted(ops, results, k) ==> StoredAsRequested(st, ops[k]))
    && (forall id :: id in st.jobs ==> exists k :: IsAccepted(ops, results, k) && ops[k].id == id)
    && (forall k :: 0 <= k < |ops| ==> AnsweredByKey(ttl, ops, results, k))
  }

  /** Each remembered key is the entry of an accepted call, and each accepted keyed call still in
      its window at `clock` is the one its key remembers. */
  ghost predicate KeysTraced(ttl: int, keys: Keys, ops: seq<Submit>, results: seq<SubmitResult>, clock: real) {
    && (forall key :: key in keys ==> exists j :: TracedTo(ttl, keys, key, ops, results, j))
    && (forall j, key :: StillAnswers(ttl, ops, results, j, key, clock) && key != "" ==>
          TracedTo(ttl, keys, key, ops, results, j))
    && (forall j :: IsAccepted(ops, results, j) ==> ops[j].now <= clock)
  }

  ghost predicate TracedTo(ttl: int, keys: Keys, key: Id, ops: seq<Submit>, results: seq<SubmitResult>, j: int) {
    && IsAccepted(ops, results, j) && ops[j].req.key == Some(key)
    && key in keys && keys[key] == KeyEntry(ops[j].id, ops[j].now + ttl as real)
  }

  lemma AcceptedExtends(ops: seq<Submit>, results: seq<SubmitResult>, op: Submit, r: SubmitResult, k: int)
    requires |results| == |ops|
    ensures IsAccepted(ops + [op], results + [r], k) <==>
            IsAccepted(ops, results, k) || (k == |ops| && r == Returned(op.id))
  {
  }

  /** The situation of one more call. */
  ghost predicate OneMoreCall(ttl: int, tracked: bool, q: QueueState, ops: seq<Submit>, results: seq<SubmitResult>,
                              clock: real, op: Submit) {
    && AsRequested(ttl, q.store, ops, results) && KeysTraced(ttl, q.keys, ops, results, clock)
    && IsFresh(q, op) && clock <= op.now
  }

  /** A key is live exactly when some accepted call of it is still in its window. */
  lemma LiveIffStillAnswers(ttl: int, tracked: bool, q: QueueState, ops: seq<Submit>, results: seq<SubmitResult>,
                            clock: real, op: Submit, key: Id)
    requires OneMoreCall(ttl, tracked, q, ops, results, clock, op) && key != ""
    ensures IsLive(q.keys, key, op.now) <==> exists j :: StillAnswers(ttl, ops, results, j, key, op.now)
    ensures IsLive(q.keys, key, op.now) ==>
              exists j :: StillAnswers(ttl, ops, results, j, key, op.now) && q.keys[key].jobId == ops[j].id
  {
    if j :| StillAnswers(ttl, ops, results, j, key, op.now) {
      assert StillAnswers(ttl, ops, results, j, key, clock);
      assert TracedTo(ttl, q.keys, key, ops, results, j);
    }
    if IsLive(q.keys, key, op.now) {
      var j :| TracedTo(ttl, q.keys, key, ops, results, j);
      assert StillAnswers(ttl, ops, results, j, key, op.now);
    }
  }

  lemma CallIsAnsweredByKey(ttl: int, tracked: bool, q: QueueState, ops: seq<Submit>, results: seq<SubmitResult>,
                            clock: real, op: Submit)
    requires OneMoreCall(ttl, tracked, q, ops, results, clock, op)
    ensures AnsweredByKey(ttl, ops + [op], results + [ResultOf(tracked, q, op)], |ops|)
  {
    var n, r := |ops|, ResultOf(tracked, q, op);
    FreshIsNeverRejected(tracked, q, op);
    if HasKey(op.req) {
      var key := op.req.key.value;
      LiveIffStillAnswers(ttl, tracked, q, ops, results, clock, op, key);
      forall j | 0 <= j < n
        ensures StillAnswers(ttl, ops + [op], results + [r], j, key, op.now) <==>
                StillAnswers(ttl, ops, results, j, key, op.now)
      {
        AcceptedExtends(ops, results, op, r, j);
      }
      if IsLive(q.keys, key, op.now) {
        var j :| StillAnswers(ttl, ops, results, j, key, op.now) && q.keys[key].jobId == ops[j].id;
        assert (ops + [op])[j] == ops[j];
        assert StillAnswers(ttl, ops + [op], results + [r], j, key, op.now);
      }
    }
  }

  lemma EarlierAnswersStand(ttl: int, ops: seq<Submit>, results: seq<SubmitResult>, op: Submit, r: SubmitResult, k: int)
    requires |results| == |ops| && 0 <= k < |ops| && AnsweredByKey(ttl, ops, results, k)
    ensures AnsweredByKey(ttl, ops + [op], results + [r], k)
  {
    var ops', results' := ops + [op], results + [r];
    assert ops'[k] == ops[k] && results'[k] == results[k];
    if ops[k].req.key.Some? {
      var key, now := ops[k].req.key.value, ops[k].now;
      forall j | 0 <= j < k
        ensures StillAnswers(ttl, ops', results', j, key, now) <==> StillAnswers(ttl, ops, results, j, key, now)
        ensures ops'[j] == ops[j]
      {
        AcceptedExtends(ops, results, op, r, j);
      }
    }
  }

  lemma CallStoresItsRequest(ttl: int, tracked: bool, q: QueueState, ops: seq<Submit>, results: seq<SubmitResult>,
                             clock: real, op: Submit)
    requires OneMoreCall(ttl, tracked, q, ops, results, clock, op)
    ensures
      var z, ops', results' := After(ttl, tracked, q, op).store, ops + [op], results + [ResultOf(tracked, q, op)];
      && (forall k :: IsAccepted(ops', results', k) ==> StoredAsRequested(z, ops'[k]))
      && (forall id :: id in z.jobs ==> exists k :: IsAccepted(ops', results', k) && ops'[k].id == id)
  {
    var z, ops', results' := After(ttl, tracked, q, op).store, ops + [op], results + [ResultOf(tracked, q, op)];
    FreshIsNeverRejected(tracked, q, op);
    forall k | IsAccepted(ops', results', k) ensures StoredAsRequested(z, ops'[k]) {
      AcceptedExtends(ops, results, op, ResultOf(tracked, q, op), k);
      if k < |ops| {
        assert ops'[k] == ops[k] && StoredAsRequested(q.store, ops[k]);
      }
    }
    forall id | id in z.jobs ensures exists k :: IsAccepted(ops', results', k) && ops'[k].id == id {
      if id in q.store.jobs {
        var k :| IsAccepted(ops, results, k) && ops[k].id == id;
        AcceptedExtends(ops, results, op, ResultOf(tracked, q, op), k);
        assert ops'[k].id == id;
      } else {
        assert IsAccepted(ops', results', |ops|);
      }
    }
  }

  lemma KeysComeFromCalls(ttl: int, tracked: bool, q: QueueState, ops: seq<Submit>, results: seq<SubmitResult>,
                          clock: real, op: Submit, key: Id)
    requires OneMoreCall(ttl, tracked, q, ops, results, clock, op) && key in After(ttl, tracked, q, op).keys
    ensures
      var keys, r := After(ttl, tracked, q, op).keys, ResultOf(tracked, q, op);
      exists j :: TracedTo(ttl, keys, key, ops + [op], results + [r], j)
  {
    var keys, r := After(ttl, tracked, q, op).keys, ResultOf(tracked, q, op);
    FreshIsNeverRejected(tracked, q, op);
    if key in q.keys && keys[key] == q.keys[key] {
      var j :| TracedTo(ttl, q.keys, key, ops, results, j);
      AcceptedExtends(ops, results, op, r, j);
      assert TracedTo(ttl, keys, key, ops + [op], results + [r], j);
    } else {
      assert TracedTo(ttl, keys, key, ops + [op], results + [r], |ops|);
    }
  }

  lemma AnsweringCallsAreRemembered(ttl: int, tracked: bool, q: QueueState, ops: seq<Submit>,
                                    results: seq<SubmitResult>, clock: real, op: Submit, j: int, key: Id)
    requires OneMoreCall(ttl, tracked, q, ops, results, clock, op) && key != ""
    requires StillAnswers(ttl, ops + [op], results + [ResultOf(tracked, q, op)], j, key, op.now)
    ensures
      var keys, r := After(ttl, tracked, q, op).keys, ResultOf(tracked, q, op);
      TracedTo(ttl, keys, key, ops + [op], results + [r], j)
  {
    FreshIsNeverRejected(tracked, q, op);
    AcceptedExtends(ops, results, op, ResultOf(tracked, q, op), j);
    if j < |ops| {
      assert StillAnswers(ttl, ops, results, j, key, clock);
      assert TracedTo(ttl, q.keys, key, ops, results, j);
    }
  }

  lemma CallKeepsKeysTraced(ttl: int, tracked: bool, q: QueueState, ops: seq<Submit>, results: seq<SubmitResult>,
                            clock: real, op: Submit)
    requires OneMoreCall(ttl, tracked, q, ops, results, clock, op)
    ensures KeysTraced(ttl, After(ttl, tracked, q, op).keys, ops + [op], results + [ResultOf(tracked, q, op)], op.now)
  {
    var keys, ops', r := After(ttl, tracked, q, op).keys, ops + [op], ResultOf(tracked, q, op);
    var results' := results + [r];
    forall key | key in keys ensures exists j :: TracedTo(ttl, keys, key, ops', results', j) {
      KeysComeFromCalls(ttl, tracked, q, ops, results, clock, op, key);
    }
    forall j, key | StillAnswers(ttl, ops', results', j, key, op.now) && key != ""
      ensures TracedTo(ttl, keys, key, ops', results', j)
    {
      AnsweringCallsAreRemembered(ttl, tracked, q, ops, results, clock, op, j, key);
    }
    forall j | IsAccepted(ops', results', j) ensures ops'[j].now <= op.now {
      AcceptedExtends(ops, results, op, r, j);
    }
  }

  lemma CallKeepsAsRequested(ttl: int, tracked: bool, q: QueueState, ops: seq<Submit>, results: seq<SubmitResult>,
                             clock: real, op: Submit)
    requires OneMoreCall(ttl, tracked, q, ops, results, clock, op)
    ensures AsRequested(ttl, After(ttl, tracked, q, op).store, ops + [op], results + [ResultOf(tracked, q, op)])
  {
    var r := ResultOf(tracked, q, op);
    CallStoresItsRequest(ttl, tracked, q, ops, results, clock, op);
    CallIsAnsweredByKey(ttl, tracked, q, ops, results, clock, op);
    forall k | 0 <= k < |ops + [op]| ensures AnsweredByKey(ttl, ops + [op], results + [r], k) {
      if k < |ops| {
        EarlierAnswersStand(ttl, ops, results, op, r, k);
      }
    }
  }

  lemma {:induction false} HistoriesGoOnAsRequested(ttl: int, tracked: bool, h: History, before: seq<Submit>,
                                                    from: real, ops: seq<Submit>)
    requires AsRequested(ttl, h.q.store, before, h.results) && KeysTraced(ttl, h.q.keys, before, h.results, from)
    requires IsHistory(ttl, tracked, h.q, from, ops)
    ensures
      var z := Replay(ttl, tracked, h, ops);
      AsRequested(ttl, z.q.store, before + ops, z.results)
    decreases |ops|
  {
    if ops == [] {
      assert before + [] == before;
    } else {
      var op := ops[0];
      var next := Extend(ttl, tracked, h, op);
      CallKeepsAsRequested(ttl, tracked, h.q, before, h.results, from, op);
      CallKeepsKeysTraced(ttl, tracked, h.q, before, h.results, from, op);
      HistoriesGoOnAsRequested(ttl, tracked, next, before + [op], op.now, ops[1..]);
      MoveFirst(before, ops);
    }
  }

  /** Over every history of submits to an empty queue, with the tracker or without: the stored jobs
      are exactly those of the accepted calls, each still as its request asked at the end; a
      request without a key is always accepted; and a keyed one is answered with the job of an
      earlier call exactly while that call's window lasts. */
  lemma HistoriesStoreAsRequested(ttl: int, tracked: bool, from: real, ops: seq<Submit>)
    requires IsHistory(ttl, tracked, EMPTY_QUEUE, from, ops)
    ensures
      var z := Replay(ttl, tracked, History(EMPTY_QUEUE, [], []), ops);
      AsRequested(ttl, z.q.store, ops, z.results)
  {
    HistoriesGoOnAsRequested(ttl, tracked, History(EMPTY_QUEUE, [], []), [], from, ops);
    assert [] + ops == ops;
  }

  lemma {:induction false} HistoriesStayValid(ttl: int, tracked: bool, h: History, ops: seq<Submit>)
    requires ValidStore(h.q.store)
    ensures ValidStore(Replay(ttl, tracked, h, ops).q.store)
    decreases |ops|
  {
    if ops != [] {
      PutKeepsValid(h.q.store, ops[0].id, NewRec(ops[0].req, ops[0].createdAt));
      HistoriesStayValid(ttl, tracked, Extend(ttl, tracked, h, ops[0]), ops[1..]);
    }
  }
}
