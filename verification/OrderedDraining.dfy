/** A worker behind a dispatcher drains a queue whose jobs wait for one another, as long as every
    dependency is dequeued before the jobs that need it. */
module OrderedDraining {
  import opened Basics
  import opened JobStates
  import opened Sorting
  import opened MemoryBackend
  import opened DependencyTracking
  import opened Dispatching
  import opened Working
  import opened WorkerRuns
  import S = Submission

  /** `d` is dequeued before `id`: by priority and age, or tied with it and stored earlier. */
  ghost predicate RanksBefore(st: Store, d: Id, id: Id)
    requires d in st.jobs && id in st.jobs
  {
    || !Precedes(EntryOf(st, id), EntryOf(st, d))
    || (Precedes(EntryOf(st, d), EntryOf(st, id)) && StoredBefore(st.order, d, id))
  }

  ghost predicate StoredBefore(order: seq<Id>, d: Id, id: Id) {
    exists i, j :: 0 <= i < j < |order| && order[i] == d && order[j] == id
  }

  // ---- The head of the queue ----

  predicate Tied(a: Entry, b: Entry) {
    Precedes(a, b) && Precedes(b, a)
  }

  lemma TiesOfFirst(e: Entry, x: Entry, rest: seq<Entry>)
    ensures Ties(e, [x] + rest, Precedes) == (if Tied(e, x) then [x] else []) + Ties(e, rest, Precedes)
  {
    assert ([x] + rest)[1..] == rest;
  }

  /** A job stored before `id` that ties with `e` keeps `id` from being the first of the ties. */
  lemma {:induction false} FirstTie(st: Store, ids: seq<Id>, i: nat, e: Entry, id: Id, q: Option<Id>)
    requires i < |ids| && IsWanted(st, ids[i], None, q) && Tied(e, EntryOf(st, ids[i]))
    requires forall k :: 0 <= k <= i ==> ids[k] != id
    ensures
      var ties := Ties(e, Wanted(st, ids, None, q), Precedes);
      ties != [] && ties[0].id != id
    decreases |ids|
  {
    var rest := Wanted(st, ids[1..], None, q);
    if i > 0 {
      FirstTie(st, ids[1..], i - 1, e, id, q);
    }
    if IsWanted(st, ids[0], None, q) {
      TiesOfFirst(e, EntryOf(st, ids[0]), rest);
      assert Wanted(st, ids, None, q) == [EntryOf(st, ids[0])] + rest;
    } else {
      assert Wanted(st, ids, None, q) == rest;
    }
  }

  lemma HeadTiesFirst(st: Store, q: Option<Id>)
    requires ValidStore(st) && Ranking(st, None, q) != []
    ensures
      var head := Ranking(st, None, q)[0];
      var ties := Ties(head, Wanted(st, st.order, None, q), Precedes);
      ties != [] && ties[0] == head
  {
    PrecedesIsTotal();
    SortIsStable(Wanted(st, st.order, None, q), Precedes, Ranking(st, None, q)[0]);
  }

  /** No waiting job ranks before the one a turn looks at. */
  lemma NoneRanksBeforeTheHead(w: World, q: Id, d: Id)
    requires ValidStore(w.store) && Head(w, q) != [] && d in Waiting(w.store, q)
    ensures Head(w, q)[0] in w.store.jobs && !RanksBefore(w.store, d, Head(w, q)[0])
  {
    var st, head := w.store, Head(w, q)[0];
    var r := Ranking(st, None, Some(q));
    RankingIsExact(st, None, Some(q));
    HeadWaits(w, q);
    assert r[0] in r && r[0] == EntryOf(st, head);
    assert IsWanted(st, d, None, Some(q));
    var k :| 0 <= k < |r| && IdsOf(r)[k] == d;
    assert r[k] in r && r[k] == EntryOf(st, d);
    assert Precedes(r[0], r[k]);
    if StoredBefore(st.order, d, head) && Precedes(r[k], r[0]) {
      var i, j :| 0 <= i < j < |st.order| && st.order[i] == d && st.order[j] == head;
      FirstTie(st, st.order, i, r[0], head, Some(q));
      HeadTiesFirst(st, Some(q));
      assert false;
    }
  }

  // ---- Turns ----

  /** Every unfinished dependency of a waiting job waits in the same queue and is dequeued earlier. */
  ghost predicate WaitsInOrder(w: World, q: Id) {
    forall id, d :: id in Waiting(w.store, q) && d in Deps(w.edges, id) ==>
      && d in w.store.jobs
      && (w.store.jobs[d].status == Succeeded || (d in Waiting(w.store, q) && RanksBefore(w.store, d, id)))
  }

  ghost predicate AllFit(g: Gates, w: World, q: Id) {
    forall id :: id in Waiting(w.store, q) ==> Fits(g, w.slots, w.store.jobs[id])
  }

  /** What a turn needs in order to take a job through: it is restored by every such turn. */
  ghost predicate CanServe(cfg: Config, g: Gates, w: World, q: Id) {
    && ValidStore(w.store) && ServesQueue(cfg, w.store, q) && cfg.gates == Some(g)
    && NoQueuedHolder(w) && AllFit(g, w, q) && WaitsInOrder(w, q)
  }

  /** The head of such a queue is always ready: nothing it waits for can still be waiting. */
  lemma HeadIsAdmissible(cfg: Config, g: Gates, w: World, q: Id)
    requires CanServe(cfg, g, w, q) && Waiting(w.store, q) != {}
    ensures Head(w, q) != [] && Head(w, q)[0] in Waiting(w.store, q) && Admissible(g, w, Head(w, q)[0])
  {
    HeadWaits(w, q);
    var id := Head(w, q)[0];
    forall d | d in Deps(w.edges, id) ensures d in StatusesOf(w.store) && StatusesOf(w.store)[d] == Succeeded {
      if d in Waiting(w.store, q) {
        NoneRanksBeforeTheHead(w, q, d);
      }
    }
  }

  predicate Succeeds(cfg: Config, turn: Turn) {
    Undisturbed(turn) && Ends(cfg, turn.outcome) == Completes
  }

  /** The head of the queue has succeeded and nothing else about the jobs has changed. */
  ghost predicate ServedHead(cfg: Config, w: World, z: World, id: Id) {
    && id in w.store.jobs && z.edges == w.edges && z.store.order == w.store.order
    && z.store.jobs == w.store.jobs[id := w.store.jobs[id].(status := Succeeded, claimedBy := Some(cfg.owner))]
  }

  lemma SucceedingTurnServes(cfg: Config, g: Gates, w: World, q: Id, turn: Turn)
    requires CanServe(cfg, g, w, q) && Waiting(w.store, q) != {} && Succeeds(cfg, turn)
    ensures Head(w, q) != [] && Head(w, q)[0] in Waiting(w.store, q)
    ensures ServedHead(cfg, w, RunOnce(cfg, w, turn).world, Head(w, q)[0])
  {
    HeadIsAdmissible(cfg, g, w, q);
    IdleTurnIff(cfg, g, w, q, turn);
    TurnProceeds(cfg, w, turn, Head(w, q)[0]);
  }

  lemma ServedHeadKeepsOrder(cfg: Config, w: World, z: World, q: Id, id: Id)
    requires WaitsInOrder(w, q) && ServedHead(cfg, w, z, id) && id in Waiting(w.store, q)
    ensures WaitsInOrder(z, q) && Waiting(z.store, q) == Waiting(w.store, q) - {id}
  {
    ServedHeadLeaves(cfg, w, z, q, id);
    forall k, d | k in Waiting(z.store, q) && d in Deps(z.edges, k)
      ensures d in z.store.jobs
      ensures z.store.jobs[d].status == Succeeded || (d in Waiting(z.store, q) && RanksBefore(z.store, d, k))
    {
      assert k in Waiting(w.store, q) && d in Deps(w.edges, k);
    }
  }

  lemma SucceedingTurnKeeps(cfg: Config, g: Gates, w: World, q: Id, turn: Turn)
    requires CanServe(cfg, g, w, q) && Waiting(w.store, q) != {} && Succeeds(cfg, turn)
    ensures
      var z := RunOnce(cfg, w, turn).world;
      CanServe(cfg, g, z, q) && SameSlots(z.slots, w.slots) && |Waiting(z.store, q)| == |Waiting(w.store, q)| - 1
  {
    var z := RunOnce(cfg, w, turn).world;
    SucceedingTurnServes(cfg, g, w, q, turn);
    TurnRestoresSlotsIff(cfg, w, turn);
    assert !StrandsSlots(cfg, w, turn);
    ServedHeadKeepsOrder(cfg, w, z, q, Head(w, q)[0]);
    forall id | id in Waiting(z.store, q) ensures Fits(g, z.slots, z.store.jobs[id]) {
      assert id in Waiting(w.store, q);
      SameSlotsFit(g, z.slots, w.slots, w.store.jobs[id]);
    }
  }

  /** Every job that waited has succeeded, no other job changed, and the slots are as they were. */
  ghost predicate ServedAll(w: World, z: World, q: Id) {
    && z.store.jobs.Keys == w.store.jobs.Keys && Waiting(z.store, q) == {} && SameSlots(z.slots, w.slots)
    && forall id :: id in w.store.jobs ==>
         if id in Waiting(w.store, q) then z.store.jobs[id].status == Succeeded
         else z.store.jobs[id] == w.store.jobs[id]
  }

  lemma ServedHeadLeaves(cfg: Config, w: World, mid: World, q: Id, id: Id)
    requires ServedHead(cfg, w, mid, id) && id in Waiting(w.store, q)
    ensures Waiting(mid.store, q) == Waiting(w.store, q) - {id}
    ensures mid.store.jobs.Keys == w.store.jobs.Keys && mid.store.jobs[id].status == Succeeded
    ensures forall k :: k in w.store.jobs && k != id ==> mid.store.jobs[k] == w.store.jobs[k]
  {
    assert mid.store.jobs.Keys == w.store.jobs.Keys;
  }

  lemma ServedHeadThenAll(cfg: Config, w: World, mid: World, z: World, q: Id, id: Id)
    requires ServedHead(cfg, w, mid, id) && id in Waiting(w.store, q)
    requires SameSlots(mid.slots, w.slots) && ServedAll(mid, z, q)
    ensures ServedAll(w, z, q)
  {
    ServedHeadLeaves(cfg, w, mid, q, id);
    forall k | k in w.store.jobs
      ensures if k in Waiting(w.store, q) then z.store.jobs[k].status == Succeeded
              else z.store.jobs[k] == w.store.jobs[k]
    {
      assert k in mid.store.jobs;
      if k != id {
        assert k in Waiting(mid.store, q) <==> k in Waiting(w.store, q);
      }
    }
  }

  /** Through a dispatcher with dependencies: when each waiting job fits the free slots on its own
      and every unfinished dependency waits in the same queue and is dequeued earlier, as many
      succeeding turns as waiting jobs finish all of them, and leave the slots as they were. */
  lemma {:induction false} OrderedQueueDrains(cfg: Config, g: Gates, w: World, q: Id, turns: seq<Turn>)
    requires CanServe(cfg, g, w, q) && |turns| >= |Waiting(w.store, q)|
    requires forall t :: t in turns ==> Succeeds(cfg, t)
    ensures ServedAll(w, RunAll(cfg, w, turns), q)
    decreases |turns|
  {
    if turns != [] {
      var turn, next := turns[0], RunOnce(cfg, w, turns[0]).world;
      assert turn in turns;
      if Waiting(w.store, q) == {} {
        IdleTurnKeeps(cfg, g, w, q, turn);
        OrderedQueueDrains(cfg, g, next, q, turns[1..]);
      } else {
        SucceedingTurnServes(cfg, g, w, q, turn);
        SucceedingTurnKeeps(cfg, g, w, q, turn);
        OrderedQueueDrains(cfg, g, next, q, turns[1..]);
        ServedHeadThenAll(cfg, w, next, RunAll(cfg, w, turns), q, Head(w, q)[0]);
      }
    }
  }

  lemma IdleTurnKeeps(cfg: Config, g: Gates, w: World, q: Id, turn: Turn)
    requires CanServe(cfg, g, w, q) && Waiting(w.store, q) == {} && Undisturbed(turn)
    ensures
      var z := RunOnce(cfg, w, turn).world;
      z.store == w.store && z.edges == w.edges && SameSlots(z.slots, w.slots) && CanServe(cfg, g, z, q)
  {
    HeadWaits(w, q);
    DequeuedAreStored(w.store, 1, Some(q));
    assert Choose(cfg, w) == Greedy(g, w.store, w.edges, w.slots, []);
  }

  // ---- Submitted work ----

  /** Every dependency is a job of the same queue that is dequeued earlier. */
  ghost predicate DependsInOrder(st: Store) {
    forall id, d :: id in st.jobs && d in st.jobs[id].dependsOn ==>
      d in st.jobs && st.jobs[d].queueName == st.jobs[id].queueName && RanksBefore(st, d, id)
  }

  /** Each request names as dependencies only stored jobs of its own queue, no younger and of no
      lower priority than itself. */
  ghost predicate NamesBetter(ttl: int, q: S.QueueState, ops: seq<S.Submit>)
    decreases |ops|
  {
    ops == [] ||
    ((forall d :: d in ops[0].req.dependsOn ==>
        && d in q.store.jobs && q.store.jobs[d].queueName == ops[0].req.queueName
        && q.store.jobs[d].priority >= ops[0].req.priority && q.store.jobs[d].createdAt <= ops[0].createdAt)
     && NamesBetter(ttl, S.After(ttl, true, q, ops[0]), ops[1..]))
  }

  lemma StoredBeforeAppend(order: seq<Id>, d: Id, id: Id, more: Id)
    ensures StoredBefore(order, d, id) ==> StoredBefore(order + [more], d, id)
    ensures d in order ==> StoredBefore(order + [more], d, more)
  {
    var longer := order + [more];
    if StoredBefore(order, d, id) {
      var i, j :| 0 <= i < j < |order| && order[i] == d && order[j] == id;
      assert longer[i] == d && longer[j] == id;
    }
    if d in order {
      var i :| 0 <= i < |order| && order[i] == d;
      assert longer[i] == d && longer[|order|] == more;
    }
  }

  /** A new job ranks after older jobs of no lower priority. */
  lemma NewcomerRanksLast(st: Store, id: Id, rec: JobRec, d: Id)
    requires ValidStore(st) && id !in st.jobs && d in st.jobs
    requires st.jobs[d].priority >= rec.priority && st.jobs[d].createdAt <= rec.createdAt
    ensures RanksBefore(Put(st, id, rec), d, id)
  {
    assert d in Elems(st.order);
    StoredBeforeAppend(st.order, d, d, id);
  }

  lemma PutKeepsRanks(st: Store, id: Id, rec: JobRec, d: Id, k: Id)
    requires id !in st.jobs && d in st.jobs && k in st.jobs && RanksBefore(st, d, k)
    ensures RanksBefore(Put(st, id, rec), d, k)
  {
    StoredBeforeAppend(st.order, d, k, id);
  }

  lemma PutKeepsDependsInOrder(st: Store, id: Id, rec: JobRec)
    requires ValidStore(st) && DependsInOrder(st) && id !in st.jobs
    requires forall d :: d in rec.dependsOn ==>
               && d in st.jobs && st.jobs[d].queueName == rec.queueName
               && st.jobs[d].priority >= rec.priority && st.jobs[d].createdAt <= rec.createdAt
    ensures DependsInOrder(Put(st, id, rec))
  {
    var z := Put(st, id, rec);
    forall k, d | k in z.jobs && d in z.jobs[k].dependsOn
      ensures d in z.jobs && z.jobs[d].queueName == z.jobs[k].queueName && RanksBefore(z, d, k)
    {
      if k == id {
        NewcomerRanksLast(st, id, rec, d);
      } else {
        PutKeepsRanks(st, id, rec, d, k);
      }
    }
  }

  lemma {:induction false} SubmitsDependInOrder(ttl: int, h: S.History, from: real, ops: seq<S.Submit>)
    requires S.WellSubmitted(h.q.store, h.q.edges) && S.AllQueued(h.q.store) && DependsInOrder(h.q.store)
    requires S.IsHistory(ttl, true, h.q, from, ops) && NamesBetter(ttl, h.q, ops)
    ensures
      var z := S.Replay(ttl, true, h, ops).q;
      S.WellSubmitted(z.store, z.edges) && S.AllQueued(z.store) && DependsInOrder(z.store)
    decreases |ops|
  {
    if ops != [] {
      S.SubmitKeepsWellSubmitted(ttl, h.q, ops[0]);
      if !S.IsDuplicate(h.q, ops[0]) && !S.IsRejected(true, h.q, ops[0]) {
        PutKeepsDependsInOrder(h.q.store, ops[0].id, S.NewRec(ops[0].req, ops[0].createdAt));
      }
      SubmitsDependInOrder(ttl, S.Extend(ttl, true, h, ops[0]), ops[0].now, ops[1..]);
    }
  }

  /** Queued jobs that depend in order wait in order. */
  lemma SubmittedWaitInOrder(w: World, q: Id)
    requires S.WellSubmitted(w.store, w.edges) && S.AllQueued(w.store) && DependsInOrder(w.store)
    ensures WaitsInOrder(w, q)
  {
    forall id, d | id in Waiting(w.store, q) && d in Deps(w.edges, id)
      ensures d in Waiting(w.store, q) && RanksBefore(w.store, d, id)
    {
      assert d in w.store.jobs[id].dependsOn;
    }
  }

  /** What the submits leave, as the worker finds it. */
  ghost function SubmittedWorld(ttl: int, ops: seq<S.Submit>, slots: SlotState): World {
    var z := S.Replay(ttl, true, S.History(S.EMPTY_QUEUE, [], []), ops).q;
    World(z.store, slots, z.edges)
  }

  /** From submit to success through the worker itself: after every history of submits to an empty
      queue whose requests name only better-ranked jobs of their own queue, as many succeeding
      turns as jobs waiting in a queue finish all of them, one job at a time, whatever the gates,
      as long as each job fits the free slots on its own. */
  lemma SubmittedQueueIsServed(ttl: int, from: real, ops: seq<S.Submit>, cfg: Config, g: Gates, w: World, q: Id,
                               turns: seq<Turn>)
    requires S.IsHistory(ttl, true, S.EMPTY_QUEUE, from, ops) && NamesBetter(ttl, S.EMPTY_QUEUE, ops)
    requires w == SubmittedWorld(ttl, ops, w.slots)
    requires ServesQueue(cfg, w.store, q) && cfg.gates == Some(g) && NoQueuedHolder(w) && AllFit(g, w, q)
    requires |turns| >= |Waiting(w.store, q)| && forall t :: t in turns ==> Succeeds(cfg, t)
    ensures ValidStore(w.store) && ServedAll(w, RunAll(cfg, w, turns), q)
  {
    S.EmptyIsWellSubmitted();
    SubmitsDependInOrder(ttl, S.History(S.EMPTY_QUEUE, [], []), from, ops);
    SubmittedWaitInOrder(w, q);
    OrderedQueueDrains(cfg, g, w, q, turns);
  }
}
