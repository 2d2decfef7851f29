/** Any number of workers over one tracker and one in-memory backend, their steps interleaved
    in every possible way. */
module SharedRuns {
  import opened Basics
  import opened JobStates
  import opened MemoryBackend
  import opened DependencyTracking
  import opened Dispatching
  import opened FallbackPolicies
  import opened Working
  import S = Submission

  /** Where a worker stands between two of its steps. */
  datatype Phase = Idle | Chosen(id: Id) | Executing(id: Id) | TimedOut(id: Id)

  datatype Shared = Shared(store: Store, edges: Edges, phases: map<Id, Phase>)

  /** One atomic step. A selection may use any gates with a tracker, any slots, limit and queue
      filter, and pick any selected job; `Abandon` is a worker lost while holding a job. */
  datatype Move =
    | SubmitMove(id: Id, rec: JobRec)
    | SelectMove(worker: Id, gates: Gates, slots: SlotState, limit: int, queueName: Option<Id>, pick: nat)
    | ClaimMove(worker: Id)
    | SucceedMove(worker: Id)
    | TimeoutMove(worker: Id)
    | FailMove(worker: Id, policies: Option<Policies>, freshId: Id, now: int)
    | AbandonMove(worker: Id)

  function PhaseOf(s: Shared, worker: Id): Phase {
    if worker in s.phases then s.phases[worker] else Idle
  }

  predicate Holds(p: Phase, id: Id) {
    (p.Executing? || p.TimedOut?) && p.id == id
  }

  predicate IsNew(s: Shared, id: Id) {
    id !in s.store.jobs && id !in s.edges
  }

  ghost predicate Enabled(s: Shared, m: Move) {
    match m
    case SubmitMove(id, rec) => IsNew(s, id) && rec.status == Queued
    case SelectMove(w, g, slots, limit, q, pick) =>
      PhaseOf(s, w) == Idle && g.tracker && ValidStore(s.store)
      && pick < |Select(g, s.store, s.edges, slots, limit, q).ids|
    case ClaimMove(w) => PhaseOf(s, w).Chosen?
    case SucceedMove(w) => PhaseOf(s, w).Executing?
    case TimeoutMove(w) => PhaseOf(s, w).Executing?
    case FailMove(w, _, freshId, _) => (PhaseOf(s, w).Executing? || PhaseOf(s, w).TimedOut?) && IsNew(s, freshId)
    case AbandonMove(w) => PhaseOf(s, w) != Idle
  }

  /** The failure write: `failed`, or what the fallback policy does. */
  function FailStore(st: Store, id: Id, policies: Option<Policies>, freshId: Id, now: int): Store
    requires id in st.jobs
  {
    if policies == None then SetStatus(st, id, Failed)
    else StoreAfter(PolicyFor(policies.value, st.jobs[id].jobType), st, id, st.jobs[id], freshId, now)
  }

  ghost function NextStore(s: Shared, m: Move): Store
    requires Inv(s) && Enabled(s, m)
  {
    match m
    case SubmitMove(id, rec) => if ClosesCycle(s.edges, id, rec.dependsOn) then s.store else Put(s.store, id, rec)
    case ClaimMove(w) => Claim(s.store, PhaseOf(s, w).id, w)
    case SucceedMove(w) => SetStatus(s.store, PhaseOf(s, w).id, Succeeded)
    case TimeoutMove(w) => SetStatus(s.store, PhaseOf(s, w).id, Timeout)
    case FailMove(w, policies, freshId, now) => FailStore(s.store, PhaseOf(s, w).id, policies, freshId, now)
    case _ => s.store
  }

  ghost function NextEdges(s: Shared, m: Move): Edges {
    if m.SubmitMove? && m.rec.dependsOn != [] && !ClosesCycle(s.edges, m.id, m.rec.dependsOn)
    then s.edges[m.id := m.rec.dependsOn] else s.edges
  }

  ghost function NextPhase(s: Shared, m: Move): Phase
    requires Enabled(s, m) && !m.SubmitMove?
  {
    match m
    case SelectMove(w, g, slots, limit, q, pick) => Chosen(Select(g, s.store, s.edges, slots, limit, q).ids[pick])
    case ClaimMove(w) => if CanClaim(s.store, PhaseOf(s, w).id) then Executing(PhaseOf(s, w).id) else Idle
    case TimeoutMove(w) => TimedOut(PhaseOf(s, w).id)
    case _ => Idle
  }

  ghost function Next(s: Shared, m: Move): Shared
    requires Inv(s) && Enabled(s, m)
  {
    Shared(NextStore(s, m), NextEdges(s, m), if m.SubmitMove? then s.phases else s.phases[m.worker := NextPhase(s, m)])
  }

  // ---- The invariant ----

  ghost predicate EdgesMatch(st: Store, edges: Edges) {
    && (forall id :: id in edges ==> id in st.jobs)
    && (forall id :: id in st.jobs ==> Deps(edges, id) == st.jobs[id].dependsOn)
  }

  /** What a phase promises about the job it names. */
  ghost predicate Honest(p: Phase, st: Store, edges: Edges) {
    match p
    case Idle => true
    case Chosen(id) => id in st.jobs && Runnable(edges, id, StatusesOf(st))
    case Executing(id) => id in st.jobs && st.jobs[id].status == Running
    case TimedOut(id) => id in st.jobs && st.jobs[id].status == Timeout
  }

  /** No job is executed by two workers. */
  ghost predicate Exclusive(phases: map<Id, Phase>) {
    forall v, w :: v in phases && w in phases && v != w && (phases[v].Executing? || phases[v].TimedOut?) ==>
      !Holds(phases[w], phases[v].id)
  }

  ghost predicate Inv(s: Shared) {
    && ValidStore(s.store)
    && EdgesMatch(s.store, s.edges)
    && (forall w :: w in s.phases ==> Honest(s.phases[w], s.store, s.edges))
    && Exclusive(s.phases)
  }

  // ---- Every step in one shape: at most one status write and at most one new job ----

  datatype NewJob = NewJob(id: Id, rec: JobRec)

  datatype Effect = Effect(touched: Option<Id>, to: JobStatus, claimant: Option<Id>, added: Option<NewJob>)

  const NO_EFFECT := Effect(None, Queued, None, None)

  ghost predicate EffectFits(st: Store, e: Effect) {
    && (e.touched.Some? ==> e.touched.value in st.jobs)
    && (e.added.Some? ==> e.added.value.id !in st.jobs && e.added.value.rec.status == Queued)
  }

  function ApplyEffect(st: Store, e: Effect): Store
    requires e.touched.Some? ==> e.touched.value in st.jobs
  {
    var st1 := if e.touched == None then st
               else Overwrite(st, e.touched.value, st.jobs[e.touched.value].(status := e.to, claimedBy := e.claimant));
    if e.added == None then st1 else Put(st1, e.added.value.id, e.added.value.rec)
  }

  ghost function EffectOf(s: Shared, m: Move): Effect
    requires Inv(s) && Enabled(s, m)
  {
    match m
    case SubmitMove(id, rec) =>
      if ClosesCycle(s.edges, id, rec.dependsOn) then NO_EFFECT else NO_EFFECT.(added := Some(NewJob(id, rec)))
    case ClaimMove(w) =>
      if CanClaim(s.store, PhaseOf(s, w).id) then Effect(Some(PhaseOf(s, w).id), Running, Some(w), None) else NO_EFFECT
    case SucceedMove(w) => WriteEffect(s, PhaseOf(s, w).id, Succeeded)
    case TimeoutMove(w) => WriteEffect(s, PhaseOf(s, w).id, Timeout)
    case FailMove(w, policies, freshId, now) => FailEffect(s.store, PhaseOf(s, w).id, policies, freshId, now)
    case _ => NO_EFFECT
  }

  function WriteEffect(s: Shared, id: Id, to: JobStatus): Effect
    requires id in s.store.jobs
  {
    Effect(Some(id), to, s.store.jobs[id].claimedBy, None)
  }

  function FailEffect(st: Store, id: Id, policies: Option<Policies>, freshId: Id, now: int): Effect
    requires id in st.jobs
  {
    var rec := st.jobs[id];
    if policies == None then Effect(Some(id), Failed, rec.claimedBy, None)
    else
      var p := PolicyFor(policies.value, rec.jobType);
      Effect(Some(id), if p.action == Retry then RetryWait else Failed, rec.claimedBy,
             if p.action == DeadLetter then Some(NewJob(freshId, DeadLetterRec(rec, p.deadLetterQueue, id, now)))
             else None)
  }

  lemma FailIsItsEffect(st: Store, id: Id, policies: Option<Policies>, freshId: Id, now: int)
    requires id in st.jobs && freshId !in st.jobs
    ensures EffectFits(st, FailEffect(st, id, policies, freshId, now))
    ensures FailStore(st, id, policies, freshId, now) == ApplyEffect(st, FailEffect(st, id, policies, freshId, now))
  {
  }

  lemma MoveIsItsEffect(s: Shared, m: Move)
    requires Inv(s) && Enabled(s, m)
    ensures EffectFits(s.store, EffectOf(s, m))
    ensures NextStore(s, m) == ApplyEffect(s.store, EffectOf(s, m))
  {
    if m.FailMove? {
      FailIsItsEffect(s.store, PhaseOf(s, m.worker).id, m.policies, m.freshId, m.now);
    }
  }

  /** The write a step makes is allowed by the transition table. */
  lemma EffectIsLegal(s: Shared, m: Move)
    requires Inv(s) && Enabled(s, m)
    ensures
      var e := EffectOf(s, m);
      e.touched.Some? ==>
        && CanTransition(s.store.jobs[e.touched.value].status, e.to)
        && s.store.jobs[e.touched.value].status in {Queued, Running, Timeout}
        && (e.to == Succeeded ==> s.store.jobs[e.touched.value].status == Running)
        && (e.to == Running <==> s.store.jobs[e.touched.value].status == Queued)
        && e.to != Queued
  {
  }

  ghost predicate KeepsJobs(a: Store, b: Store, touched: Option<Id>) {
    forall id :: id in a.jobs ==>
      && id in b.jobs
      && b.jobs[id].dependsOn == a.jobs[id].dependsOn
      && (touched != Some(id) ==> b.jobs[id].status == a.jobs[id].status)
  }

  lemma EffectKeepsJobs(st: Store, e: Effect)
    requires ValidStore(st) && EffectFits(st, e)
    ensures ValidStore(ApplyEffect(st, e)) && KeepsJobs(st, ApplyEffect(st, e), e.touched)
    ensures forall id :: id in ApplyEffect(st, e).jobs ==> id in st.jobs || (e.added.Some? && id == e.added.value.id)
  {
    if e.added.Some? {
      PutKeepsValid(ApplyEffect(st, e.(added := None)), e.added.value.id, e.added.value.rec);
    }
  }

  /** Storing a new job together with its edges keeps the two in step. */
  lemma PutKeepsEdgesMatch(st: Store, edges: Edges, id: Id, rec: JobRec)
    requires EdgesMatch(st, edges) && id !in st.jobs && id !in edges
    ensures EdgesMatch(Put(st, id, rec), if rec.dependsOn == [] then edges else edges[id := rec.dependsOn])
  {
  }

  /** A status write and a new job without dependencies leave the edges right. */
  lemma EffectKeepsEdgesMatch(st: Store, edges: Edges, e: Effect)
    requires EdgesMatch(st, edges) && EffectFits(st, e)
    requires e.added.Some? ==> e.added.value.rec.dependsOn == [] && e.added.value.id !in edges
    ensures EdgesMatch(ApplyEffect(st, e), edges)
  {
    var st1 := ApplyEffect(st, e.(added := None));
    assert EdgesMatch(st1, edges);
    if e.added.Some? {
      PutKeepsEdgesMatch(st1, edges, e.added.value.id, e.added.value.rec);
    }
  }

  lemma MoveKeepsEdgesMatch(s: Shared, m: Move)
    requires Inv(s) && Enabled(s, m)
    ensures EdgesMatch(Next(s, m).store, Next(s, m).edges)
  {
    if m.SubmitMove? {
      PutKeepsEdgesMatch(s.store, s.edges, m.id, m.rec);
    } else {
      MoveIsItsEffect(s, m);
      EffectKeepsEdgesMatch(s.store, s.edges, EffectOf(s, m));
    }
  }

  lemma HonestyIsStable(p: Phase, a: Store, b: Store, edges: Edges, edges': Edges, touched: Option<Id>)
    requires Honest(p, a, edges) && EdgesMatch(a, edges) && EdgesMatch(b, edges') && KeepsJobs(a, b, touched)
    requires touched.Some? ==> touched.value in a.jobs && a.jobs[touched.value].status != Succeeded
    requires touched.Some? ==> !Holds(p, touched.value)
    ensures Honest(p, b, edges')
  {
    if p.Chosen? {
      forall d | d in Deps(edges', p.id) ensures d in b.jobs && b.jobs[d].status == Succeeded {
        assert d in Deps(edges, p.id);
        assert d in StatusesOf(a) && StatusesOf(a)[d] == Succeeded;
      }
    }
  }

  lemma SelectedIsHonest(s: Shared, m: Move)
    requires Inv(s) && Enabled(s, m) && m.SelectMove?
    ensures Honest(NextPhase(s, m), s.store, s.edges)
  {
    var ids := Dequeue(s.store, m.limit, None, m.queueName);
    DequeuedAreStored(s.store, m.limit, m.queueName);
    GreedySelectsReady(m.gates, s.store, s.edges, m.slots, ids);
    var sel := Select(m.gates, s.store, s.edges, m.slots, m.limit, m.queueName).ids;
    assert sel[m.pick] in sel && IsReady(m.gates, s.store, s.edges, sel[m.pick]);
  }

  lemma MovedWorkerIsHonest(s: Shared, m: Move)
    requires Inv(s) && Enabled(s, m) && !m.SubmitMove?
    ensures Honest(NextPhase(s, m), NextStore(s, m), NextEdges(s, m))
  {
    if m.SelectMove? {
      SelectedIsHonest(s, m);
    }
  }

  /** A worker that did not move does not hold the job the step wrote to. */
  lemma OthersDoNotHold(s: Shared, m: Move, w: Id)
    requires Inv(s) && Enabled(s, m) && w in s.phases && (m.SubmitMove? || w != m.worker)
    ensures EffectOf(s, m).touched.Some? ==> !Holds(s.phases[w], EffectOf(s, m).touched.value)
  {
    assert Honest(s.phases[w], s.store, s.edges);
  }

  /** Every step by anybody keeps the invariant. */
  lemma MoveKeepsInv(s: Shared, m: Move)
    requires Inv(s) && Enabled(s, m)
    ensures Inv(Next(s, m))
  {
    var z, e := Next(s, m), EffectOf(s, m);
    MoveIsItsEffect(s, m);
    EffectIsLegal(s, m);
    EffectKeepsJobs(s.store, e);
    MoveKeepsEdgesMatch(s, m);
    forall w | w in z.phases ensures Honest(z.phases[w], z.store, z.edges) {
      if !m.SubmitMove? && w == m.worker {
        MovedWorkerIsHonest(s, m);
      } else {
        OthersDoNotHold(s, m, w);
        HonestyIsStable(s.phases[w], s.store, z.store, s.edges, z.edges, e.touched);
      }
    }
    MoveKeepsExclusive(s, m);
  }

  lemma MoveKeepsExclusive(s: Shared, m: Move)
    requires Inv(s) && Enabled(s, m)
    ensures Exclusive(Next(s, m).phases)
  {
    if !m.SubmitMove? {
      forall w | w in s.phases && w != m.worker
        ensures NextPhase(s, m).Executing? || NextPhase(s, m).TimedOut? ==> !Holds(s.phases[w], NextPhase(s, m).id)
      {
        OthersDoNotHold(s, m, w);
      }
    }
  }
}
