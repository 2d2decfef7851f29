/** Every way a worker's turn can end: what it answers, what it writes, and what it charges. */
module WorkerTurns {
  import opened Basics
  import opened JobStates
  import opened MemoryBackend
  import opened DependencyTracking
  import opened Dispatching
  import opened FallbackPolicies
  import opened FirstFit
  import opened Working
  import S = Submission
  import R = ResourcePools

  // ---- The job a turn takes ----

  /** Without a dispatcher: the best eligible job of the worker's queue, and none exactly when there
      is none. */
  lemma ChosenIsBest(cfg: Config, w: World)
    requires ValidStore(w.store) && cfg.gates == None
    ensures
      var ids, all := Choose(cfg, w).ids, Eligible(w.store, None, cfg.queueName);
      if all == {} then ids == []
      else |ids| == 1 && ids[0] in all && forall k :: k in all ==> NoWorse(w.store.jobs[ids[0]], w.store.jobs[k])
  {
    BestOfOne(w.store, cfg.queueName);
  }

  lemma BestOfOne(st: Store, q: Option<Id>)
    requires ValidStore(st)
    ensures
      var ids, all := Dequeue(st, 1, None, q), Eligible(st, None, q);
      if all == {} then ids == []
      else |ids| == 1 && ids[0] in all && forall k :: k in all ==> NoWorse(st.jobs[ids[0]], st.jobs[k])
  {
    var ids, all := Dequeue(st, 1, None, q), Eligible(st, None, q);
    DequeueSize(st, 1, None, q);
    DequeueWrittenOut(st, 1, None, q);
    if all != {} {
      var some :| some in all;
      assert |all| > 0;
      assert ids[0] in Elems(ids);
      forall k | k in all ensures NoWorse(st.jobs[ids[0]], st.jobs[k]) {
        assert k in ids ==> k == ids[0];
      }
    }
  }

  /** With a dispatcher: that same job when its dependencies have succeeded and all its slots are
      free, and otherwise none; the slots it takes are exactly what its own record asks for. */
  lemma DispatchedIsBestIfItFits(cfg: Config, g: Gates, w: World)
    requires ValidStore(w.store) && cfg.gates == Some(g)
    ensures
      var c, all := Choose(cfg, w), Eligible(w.store, None, cfg.queueName);
      if all == {} then c == Selection([], w.slots)
      else
        exists head :: head in all && (forall k :: k in all ==> NoWorse(w.store.jobs[head], w.store.jobs[k]))
                       && TakesIfItFits(g, w, head, c)
  {
    var ids := Dequeue(w.store, 1, None, cfg.queueName);
    BestOfOne(w.store, cfg.queueName);
    DequeuedAreStored(w.store, 1, cfg.queueName);
    assert Choose(cfg, w) == Greedy(g, w.store, w.edges, w.slots, ids);
    if ids != [] {
      assert ids == [ids[0]];
      OneCandidate(g, w, ids[0]);
      assert TakesIfItFits(g, w, ids[0], Choose(cfg, w));
    }
  }

  /** The candidate could be selected now. */
  ghost predicate CanTake(g: Gates, w: World, id: Id)
    requires id in w.store.jobs
  {
    && DependenciesDone(g, w.store, w.edges, id)
    && (g.concurrency.Some? ==>
          RoomForOneMore(g.concurrency.value, w.slots.conc, w.store, [], w.store.jobs[id].jobType))
    && (g.pool.Some? ==>
          !PassesALimit(g.pool.value, w.slots.pool.used, w.store, [], w.store.jobs[id].resources))
  }

  /** The candidate is selected and its slots charged, or nothing is and no counter changes. */
  ghost predicate TakesIfItFits(g: Gates, w: World, id: Id, c: Selection) {
    && id in w.store.jobs
    && if CanTake(g, w, id) then c.ids == [id] && Charges(g, w.slots, c.slots, id, w.store.jobs[id])
       else c.ids == [] && SameSlots(c.slots, w.slots)
  }

  /** One slot of the job's type for the default tenant and user, and the resources it asks for. */
  ghost predicate Charges(g: Gates, s: SlotState, z: SlotState, id: Id, rec: JobRec) {
    && (if g.concurrency.Some? then
          && z.conc.global == s.conc.global + 1
          && (forall k :: Get(z.conc.byType, k) == Get(s.conc.byType, k) + if k == rec.jobType then 1 else 0)
          && (forall k :: Get(z.conc.byTenant, k) == Get(s.conc.byTenant, k) + if k == "default" then 1 else 0)
          && (forall k :: Get(z.conc.byUser, k) == Get(s.conc.byUser, k) + if k == "default" then 1 else 0)
        else z.conc == s.conc)
    && (if g.pool.Some? then
          && (forall p :: Get(z.pool.used, p) == Get(s.pool.used, p) + Get(rec.resources, p))
          && z.pool.holders == if rec.resources == map[] then s.pool.holders else s.pool.holders[id := rec.resources]
        else z.pool == s.pool)
  }

  lemma OneCandidate(g: Gates, w: World, id: Id)
    requires id in w.store.jobs
    ensures AllStored(w.store, [id]) && TakesIfItFits(g, w, id, Greedy(g, w.store, w.edges, w.slots, [id]))
  {
    var ids, a := [id], Admit(g, w.slots, id, w.store.jobs[id]);
    assert ids[1..] == [] && ids[..0] == [];
    FirstFitWrittenOut(g, w.store, w.edges, w.slots, ids, 0);
    ReadyIffDone(g, w.store, w.edges, id);
    AdmitIsExact(g, w.slots, id, w.store.jobs[id]);
    assert Greedy(g, w.store, w.edges, a.slots, []) == Selection([], a.slots);
    if CanTake(g, w, id) {
      AdmissionCharges(g, w.slots, id, w.store.jobs[id]);
    }
  }

  lemma AdmissionCharges(g: Gates, s: SlotState, id: Id, rec: JobRec)
    requires Admit(g, s, id, rec).ok
    ensures Charges(g, s, Admit(g, s, id, rec).slots, id, rec)
  {
  }

  // ---- What a turn answers ----

  /** The handler ended by itself: without a configured timeout it is simply awaited. */
  predicate HandlerEnds(cfg: Config, turn: Turn) {
    turn.outcome == Completes || (turn.outcome == TimesOut && !cfg.hasTimeout)
  }

  /** Failures of the job type are raised: there are no policies, none for it, or it is retried. */
  predicate RaisesFailures(cfg: Config, jobType: Id) {
    cfg.policies == None || jobType !in cfg.policies.value || cfg.policies.value[jobType].action == Retry
  }

  /** Failures of the job type are notified and the notifier fails. */
  predicate NotifierEscapes(cfg: Config, jobType: Id, turn: Turn) {
    && cfg.policies.Some? && jobType in cfg.policies.value && turn.notifierFails
    && var p := cfg.policies.value[jobType];
       p.action == Notify && p.notifyUrl.Some? && p.notifyUrl.value != ""
  }

  /** The turn runs a job of that type: allowed to, one was selected, nobody else claimed it first,
      and the type has a handler. */
  ghost predicate RunsJobOf(cfg: Config, w: World, turn: Turn, jobType: Id)
    requires ValidStore(w.store)
  {
    && turn.authorised && turn.rival == None && jobType in cfg.handlers
    && Choose(cfg, w).ids != [] && Choose(cfg, w).ids[0] in w.store.jobs
    && w.store.jobs[Choose(cfg, w).ids[0]].jobType == jobType
  }

  /** A turn is refused with a permission error exactly when it is not authorised, and then it has
      touched nothing. */
  lemma DeniedIffUnauthorised(cfg: Config, w: World, turn: Turn)
    requires ValidStore(w.store)
    ensures RunOnce(cfg, w, turn).result == Raised(PermissionDenied) <==> !turn.authorised
    ensures !turn.authorised ==> RunOnce(cfg, w, turn).world == w
  {
    if turn.authorised && Choose(cfg, w).ids != [] {
      ChosenIsWanted(cfg, w);
      assert Choose(cfg, w).ids[0] in Choose(cfg, w).ids;
    }
  }

  /** False exactly when nothing was selected or a rival claimed it first; the unknown job type
      exactly when the claimed job has no handler. */
  lemma IdleAndUnhandledExits(cfg: Config, w: World, turn: Turn)
    requires ValidStore(w.store)
    ensures
      var r, ids := RunOnce(cfg, w, turn).result, Choose(cfg, w).ids;
      && (r == Processed(false) <==> turn.authorised && (ids == [] || turn.rival.Some?))
      && (r == Raised(UnknownJobType) <==>
            && turn.authorised && turn.rival == None && ids != []
            && ids[0] in w.store.jobs && w.store.jobs[ids[0]].jobType !in cfg.handlers)
  {
    if turn.authorised && Choose(cfg, w).ids != [] {
      ChosenIsWanted(cfg, w);
      assert Choose(cfg, w).ids[0] in Choose(cfg, w).ids;
    }
  }

  /** What a failed handler's turn answers. */
  lemma FailureExits(cfg: Config, st: Store, id: Id, outcome: HandlerOutcome, turn: Turn)
    requires id in st.jobs && outcome != Completes
    ensures
      var r, jobType := Fail(cfg, st, id, outcome, turn).result, st.jobs[id].jobType;
      r == if RaisesFailures(cfg, jobType) then Raised(if outcome == TimesOut then TimeoutExceeded else HandlerError)
           else if NotifierEscapes(cfg, jobType, turn) then Raised(NotifierError)
           else Processed(true)
  {
  }

  /** The remaining answers, each exactly when: True after success and after a failure that was
      dead-lettered, notified or ignored; the handler's own error or the timeout under retry or
      without a policy; and the notifier's error when it fails. */
  lemma RunningExits(cfg: Config, w: World, turn: Turn, jobType: Id)
    requires ValidStore(w.store) && RunsJobOf(cfg, w, turn, jobType)
    ensures
      var r := RunOnce(cfg, w, turn).result;
      && (r == Processed(true) <==>
            HandlerEnds(cfg, turn) || !(RaisesFailures(cfg, jobType) || NotifierEscapes(cfg, jobType, turn)))
      && (r == Raised(HandlerError) <==> turn.outcome == Raises && RaisesFailures(cfg, jobType))
      && (r == Raised(TimeoutExceeded) <==>
            turn.outcome == TimesOut && cfg.hasTimeout && RaisesFailures(cfg, jobType))
      && (r == Raised(NotifierError) <==> !HandlerEnds(cfg, turn) && NotifierEscapes(cfg, jobType, turn))
  {
    var id := Choose(cfg, w).ids[0];
    TurnProceeds(cfg, w, turn, id);
    ChosenIsWanted(cfg, w);
    assert id in Choose(cfg, w).ids;
    if !HandlerEnds(cfg, turn) {
      FailureExits(cfg, Claim(w.store, id, cfg.owner), id, turn.outcome, turn);
    }
  }

  /** The answers that come from a running handler come from nowhere else. */
  lemma OnlyRunningTurnsAnswer(cfg: Config, w: World, turn: Turn)
    requires ValidStore(w.store)
    requires RunOnce(cfg, w, turn).result in
               {Processed(true), Raised(HandlerError), Raised(TimeoutExceeded), Raised(NotifierError)}
    ensures exists jobType :: RunsJobOf(cfg, w, turn, jobType)
  {
    DeniedIffUnauthorised(cfg, w, turn);
    IdleAndUnhandledExits(cfg, w, turn);
    ChosenIsWanted(cfg, w);
    var id := Choose(cfg, w).ids[0];
    assert id in Choose(cfg, w).ids;
    assert RunsJobOf(cfg, w, turn, w.store.jobs[id].jobType);
  }

  // ---- What a turn writes ----

  /** The status a failed job of the type ends in. */
  function FailedStatus(cfg: Config, jobType: Id): JobStatus {
    if cfg.policies.Some? && (jobType !in cfg.policies.value || cfg.policies.value[jobType].action == Retry)
    then RetryWait else Failed
  }

  /** The statuses a turn that runs its job writes to it, in order. */
  function WrittenStatuses(cfg: Config, jobType: Id, turn: Turn): seq<JobStatus> {
    if HandlerEnds(cfg, turn) then [Running, Succeeded]
    else if turn.outcome == TimesOut then [Running, Timeout, FailedStatus(cfg, jobType)]
    else [Running, FailedStatus(cfg, jobType)]
  }

  /** The log of one job going from status to status. */
  function WritesThrough(id: Id, from: JobStatus, to: seq<JobStatus>): seq<Write>
    decreases |to|
  {
    if to == [] then [] else [Write(id, from, to[0])] + WritesThrough(id, to[0], to[1..])
  }

  /** A turn that was refused or idle writes nothing; one that lost its job to a rival, or has no
      handler for it, leaves it running under the claimant, with that one write. */
  lemma TurnsThatRunNothing(cfg: Config, w: World, turn: Turn)
    requires ValidStore(w.store)
    ensures
      var z, ids := RunOnce(cfg, w, turn).world, Choose(cfg, w).ids;
      && z.edges == w.edges
      && (!turn.authorised || ids == [] ==> z.store == w.store)
      && (turn.authorised && ids != [] && ids[0] in w.store.jobs
          && (turn.rival.Some? || w.store.jobs[ids[0]].jobType !in cfg.handlers) ==>
            && z.store.jobs == w.store.jobs[ids[0] := w.store.jobs[ids[0]].(status := Running,
                 claimedBy := Some(if turn.rival.Some? then turn.rival.value else cfg.owner))]
            && z.store.order == w.store.order
            && z.store.log == w.store.log + [Write(ids[0], Queued, Running)])
  {
    if turn.authorised && Choose(cfg, w).ids != [] {
      ChosenIsWanted(cfg, w);
      assert Choose(cfg, w).ids[0] in Choose(cfg, w).ids;
    }
  }

  /** The failure's writes and what it leaves of the failed job. */
  lemma FailureWrites(cfg: Config, st: Store, id: Id, outcome: HandlerOutcome, turn: Turn)
    requires id in st.jobs && st.jobs[id].status == Running && outcome != Completes && turn.freshId !in st.jobs
    ensures
      var z, jobType := Fail(cfg, st, id, outcome, turn).store, st.jobs[id].jobType;
      var end := FailedStatus(cfg, jobType);
      && z.log == st.log + (if outcome == TimesOut then [Write(id, Running, Timeout), Write(id, Timeout, end)]
                            else [Write(id, Running, end)])
      && (forall k :: k in st.jobs && k != id ==> k in z.jobs && z.jobs[k] == st.jobs[k])
      && id in z.jobs && z.jobs[id] == st.jobs[id].(status := end)
      && (if cfg.policies.Some? && jobType in cfg.policies.value
          then SettlesAs(cfg.policies.value[jobType], st, z, id, turn.freshId, turn.now)
          else z.jobs.Keys == st.jobs.Keys)
  {
    var marked := if outcome == TimesOut then SetStatus(st, id, Timeout) else st;
    if cfg.policies.Some? {
      PoliciesSettle(cfg.policies.value, marked, id, turn.freshId, turn.now);
    }
  }

  /** The writes of each ending, listed. */
  lemma PathWrites(cfg: Config, id: Id, jobType: Id, turn: Turn)
    ensures
      var end := FailedStatus(cfg, jobType);
      WritesThrough(id, Queued, WrittenStatuses(cfg, jobType, turn)) ==
      [Write(id, Queued, Running)]
      + if HandlerEnds(cfg, turn) then [Write(id, Running, Succeeded)]
        else if turn.outcome == TimesOut then [Write(id, Running, Timeout), Write(id, Timeout, end)]
        else [Write(id, Running, end)]
  {
    var path := WrittenStatuses(cfg, jobType, turn);
    var last := path[1..][1..];
    assert WritesThrough(id, Queued, path) == [Write(id, Queued, Running)] + WritesThrough(id, Running, path[1..]);
    assert WritesThrough(id, Running, path[1..]) ==
           [Write(id, Running, path[1])] + WritesThrough(id, path[1], last);
    if |path| == 3 {
      assert last == [path[2]] && last[1..] == [];
    } else {
      assert last == [];
    }
  }

  /** From the store a turn finds to the one it leaves, for the job it runs: the job's statuses are
      written one after the other, it keeps everything but status and claimant, every other job
      keeps everything, and only a dead letter, as its policy says, is added. */
  ghost predicate RanThrough(cfg: Config, st: Store, z: Store, id: Id, turn: Turn)
    requires id in st.jobs
  {
    var jobType := st.jobs[id].jobType;
    var path := WrittenStatuses(cfg, jobType, turn);
    && z.log == st.log + WritesThrough(id, Queued, path)
    && id in z.jobs
    && z.jobs[id] == st.jobs[id].(status := path[|path| - 1], claimedBy := Some(cfg.owner))
    && (forall k :: k in st.jobs && k != id ==> k in z.jobs && z.jobs[k] == st.jobs[k])
    && (if !HandlerEnds(cfg, turn) && cfg.policies.Some? && jobType in cfg.policies.value
        then SettlesAs(cfg.policies.value[jobType], ClaimedStore(st, id, cfg.owner), z, id, turn.freshId, turn.now)
        else z.jobs.Keys == st.jobs.Keys)
  }

  function ClaimedStore(st: Store, id: Id, owner: Id): Store
    requires id in st.jobs
  {
    Store(st.jobs[id := st.jobs[id].(status := Running, claimedBy := Some(owner))], st.order, st.log)
  }

  lemma ExecutionRunsThrough(cfg: Config, st: Store, id: Id, turn: Turn)
    requires CanClaim(st, id) && turn.freshId !in st.jobs
    ensures RanThrough(cfg, st, Execute(cfg, Claim(st, id, cfg.owner), id, turn).store, id, turn)
  {
    PathWrites(cfg, id, st.jobs[id].jobType, turn);
    if !HandlerEnds(cfg, turn) {
      FailureWrites(cfg, Claim(st, id, cfg.owner), id, turn.outcome, turn);
    }
  }

  /** A turn that runs its job takes it through exactly the statuses of its handler's ending. */
  lemma RunningWrites(cfg: Config, w: World, turn: Turn, jobType: Id)
    requires ValidStore(w.store) && RunsJobOf(cfg, w, turn, jobType) && turn.freshId !in w.store.jobs
    ensures RanThrough(cfg, w.store, RunOnce(cfg, w, turn).world.store, Choose(cfg, w).ids[0], turn)
  {
    var id := Choose(cfg, w).ids[0];
    TurnProceeds(cfg, w, turn, id);
    ChosenIsWanted(cfg, w);
    assert id in Choose(cfg, w).ids;
    ExecutionRunsThrough(cfg, w.store, id, turn);
  }

  // ---- What was submitted is what is charged ----

  /** From submit to slots: after every history of submits, a turn that selects an accepted call's
      job charges exactly the resources that call's request named, in the job's name. */
  lemma SubmittedResourcesAreCharged(ttl: int, tracked: bool, from: real, ops: seq<S.Submit>, cfg: Config, g: Gates,
                                     w: World, k: nat)
    requires S.IsHistory(ttl, tracked, S.EMPTY_QUEUE, from, ops) && ValidStore(w.store) && cfg.gates == Some(g)
    requires
      var z := S.Replay(ttl, tracked, S.History(S.EMPTY_QUEUE, [], []), ops);
      w.store == z.q.store && w.edges == z.q.edges && S.IsAccepted(ops, z.results, k)
    requires Choose(cfg, w).ids != [] && Choose(cfg, w).ids[0] == ops[k].id
    ensures ops[k].id in w.store.jobs && Charges(g, w.slots, Choose(cfg, w).slots, ops[k].id, w.store.jobs[ops[k].id])
    ensures w.store.jobs[ops[k].id].resources == ops[k].req.resources
    ensures w.store.jobs[ops[k].id].jobType == ops[k].req.jobType
    ensures g.pool.Some? ==>
              forall p :: Get(Choose(cfg, w).slots.pool.used, p) ==
                          Get(w.slots.pool.used, p) + Get(ops[k].req.resources, p)
    ensures g.pool.Some? && ops[k].req.resources != map[] ==>
              var holders := Choose(cfg, w).slots.pool.holders;
              ops[k].id in holders && holders[ops[k].id] == ops[k].req.resources
  {
    S.HistoriesStoreAsRequested(ttl, tracked, from, ops);
    assert S.StoredAsRequested(w.store, ops[k]);
    DispatchedIsBestIfItFits(cfg, g, w);
  }

  /** And so does a selection of any size: each selected job holds what its request named. */
  lemma SelectedHoldWhatTheyAsked(ttl: int, tracked: bool, from: real, ops: seq<S.Submit>, g: Gates, w: World,
                                  limit: int, q: Option<Id>, k: nat)
    requires S.IsHistory(ttl, tracked, S.EMPTY_QUEUE, from, ops) && ValidStore(w.store) && g.pool.Some?
    requires
      var z := S.Replay(ttl, tracked, S.History(S.EMPTY_QUEUE, [], []), ops);
      w.store == z.q.store && w.edges == z.q.edges && S.IsAccepted(ops, z.results, k)
    requires ops[k].id in Select(g, w.store, w.edges, w.slots, limit, q).ids && ops[k].req.resources != map[]
    ensures
      var holders := Select(g, w.store, w.edges, w.slots, limit, q).slots.pool.holders;
      ops[k].id in holders && holders[ops[k].id] == ops[k].req.resources
  {
    S.HistoriesStoreAsRequested(ttl, tracked, from, ops);
    assert S.StoredAsRequested(w.store, ops[k]);
    DequeuedAreStored(w.store, limit, q);
    GreedyAccounting(g, w.store, w.edges, w.slots, Dequeue(w.store, limit, None, q));
  }
}
