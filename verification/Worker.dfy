/** One worker turn: select, claim, run the handler, settle the status, give the slots back. */
module Working {
  import opened Basics
  import opened JobStates
  import opened MemoryBackend
  import opened DependencyTracking
  import opened Dispatching
  import opened FallbackPolicies
  import C = Concurrency
  import R = ResourcePools

  datatype HandlerOutcome = Completes | Raises | TimesOut

  datatype ErrorKind = PermissionDenied | UnknownJobType | HandlerError | TimeoutExceeded | NotifierError

  datatype RunResult = Processed(did: bool) | Raised(kind: ErrorKind)

  /** How the worker was set up; `gates` is None when there is no dispatcher. */
  datatype Config = Config(gates: Option<Gates>, queueName: Option<Id>, handlers: set<Id>, hasTimeout: bool,
                           policies: Option<Policies>, owner: Id)

  /** What the surroundings contribute to one turn: the identity check, a rival worker that may
      claim the selected job first, how the handler ends, the id and stamp of a dead letter, and
      whether the notifier fails. */
  datatype Turn = Turn(authorised: bool, rival: Option<Id>, outcome: HandlerOutcome, freshId: Id, now: int,
                       notifierFails: bool)

  datatype World = World(store: Store, slots: SlotState, edges: Edges)

  datatype Step = Step(world: World, result: RunResult)

  datatype Ending = Ending(store: Store, result: RunResult)

  /** Without a configured timeout a handler is simply awaited. */
  function Ends(cfg: Config, outcome: HandlerOutcome): HandlerOutcome {
    if outcome == TimesOut && !cfg.hasTimeout then Completes else outcome
  }

  function ErrorOf(outcome: HandlerOutcome): ErrorKind {
    if outcome == TimesOut then TimeoutExceeded else HandlerError
  }

  /** The `except` branch: a timeout is written first, then the fallback policy decides. */
  function Fail(cfg: Config, st: Store, id: Id, outcome: HandlerOutcome, turn: Turn): Ending
    requires id in st.jobs
  {
    var marked := if outcome == TimesOut then SetStatus(st, id, Timeout) else st;
    if cfg.policies == None then Ending(SetStatus(marked, id, Failed), Raised(ErrorOf(outcome)))
    else
      var policy := PolicyFor(cfg.policies.value, st.jobs[id].jobType);
      Ending(StoreAfter(policy, marked, id, marked.jobs[id], turn.freshId, turn.now),
             match DecisionOf(policy, turn.freshId, turn.notifierFails)
             case NotifierRaised => Raised(NotifierError)
             case Decided(d) => if d.shouldRaise then Raised(ErrorOf(outcome)) else Processed(true))
  }

  /** The handler and its `except` branch, from a claimed job on. */
  function Execute(cfg: Config, st: Store, id: Id, turn: Turn): Ending
    requires id in st.jobs
  {
    var outcome := Ends(cfg, turn.outcome);
    if outcome == Completes then Ending(SetStatus(st, id, Succeeded), Processed(true))
    else Fail(cfg, st, id, outcome, turn)
  }

  ghost function Choose(cfg: Config, w: World): Selection
    requires ValidStore(w.store)
  {
    match cfg.gates
    case None => Selection(Dequeue(w.store, 1, None, cfg.queueName), w.slots)
    case Some(g) => Select(g, w.store, w.edges, w.slots, 1, cfg.queueName)
  }

  function Settle(cfg: Config, s: SlotState, id: Id, jobType: Id): SlotState {
    if cfg.gates.Some? then GiveBack(cfg.gates.value, s, id, jobType) else s
  }

  function Rivalled(st: Store, id: Id, rival: Option<Id>): Store {
    if rival.Some? then Claim(st, id, rival.value) else st
  }

  lemma ChosenIsWanted(cfg: Config, w: World)
    requires ValidStore(w.store)
    ensures forall id :: id in Choose(cfg, w).ids ==> IsWanted(w.store, id, None, cfg.queueName)
  {
    DequeueIsBestFirst(w.store, 1, None, cfg.queueName);
    if cfg.gates.Some? {
      DequeuedAreStored(w.store, 1, cfg.queueName);
      GreedySelectsReady(cfg.gates.value, w.store, w.edges, w.slots, Dequeue(w.store, 1, None, cfg.queueName));
    }
  }

  /** From a selected job on: the claim race, the handler, and the slots given back. */
  function Proceed(cfg: Config, w: World, id: Id, turn: Turn): Step
    requires id in w.store.jobs
  {
    var st := Rivalled(w.store, id, turn.rival);
    var jobType := w.store.jobs[id].jobType;
    var settled := Settle(cfg, w.slots, id, jobType);
    if !CanClaim(st, id) then Step(World(st, settled, w.edges), Processed(false))
    else if jobType !in cfg.handlers then
      Step(World(Claim(st, id, cfg.owner), w.slots, w.edges), Raised(UnknownJobType))
    else
      var end := Execute(cfg, Claim(st, id, cfg.owner), id, turn);
      Step(World(end.store, settled, w.edges), end.result)
  }

  ghost function RunOnce(cfg: Config, w: World, turn: Turn): Step
    requires ValidStore(w.store)
  {
    if !turn.authorised then Step(w, Raised(PermissionDenied))
    else
      var chosen := Choose(cfg, w);
      if chosen.ids == [] then Step(w.(slots := chosen.slots), Processed(false))
      else
        ChosenIsWanted(cfg, w);
        assert chosen.ids[0] in chosen.ids;
        Proceed(cfg, w.(slots := chosen.slots), chosen.ids[0], turn)
  }

  /** An authorised turn that selected `id` goes on from there. */
  lemma TurnProceeds(cfg: Config, w: World, turn: Turn, id: Id)
    requires ValidStore(w.store) && turn.authorised && Choose(cfg, w).ids != [] && Choose(cfg, w).ids[0] == id
    ensures id in w.store.jobs
    ensures RunOnce(cfg, w, turn) == Proceed(cfg, w.(slots := Choose(cfg, w).slots), id, turn)
  {
    ChosenIsWanted(cfg, w);
    assert id in Choose(cfg, w).ids;
  }

  class Worker {
    const backend: MemoryQueueBackend
    const concurrency: C.ConcurrencyManager?
    const pool: R.ResourcePool?
    const tracker: DependencyTracker?
    const dispatcher: Dispatcher?
    const fallback: FallbackPolicyManager?
    const queueName: Option<Id>
    const hasTimeout: bool
    const owner: Id
    var handlers: set<Id>

    /** A dispatcher exists exactly when one of the three controls was supplied. */
    constructor (backend: MemoryQueueBackend, owner: Id, queueName: Option<Id>, hasTimeout: bool,
                 fallback: FallbackPolicyManager?, pool: R.ResourcePool?, concurrency: C.ConcurrencyManager?,
                 tracker: DependencyTracker?)
      requires backend.Valid()
      ensures Valid() && handlers == {}
      ensures this.backend == backend && this.owner == owner && this.queueName == queueName
      ensures this.hasTimeout == hasTimeout && this.fallback == fallback
      ensures this.pool == pool && this.concurrency == concurrency && this.tracker == tracker
      ensures dispatcher == null <==> pool == null && concurrency == null && tracker == null
    {
      this.backend, this.owner, this.queueName := backend, owner, queueName;
      this.hasTimeout, this.fallback, handlers := hasTimeout, fallback, {};
      this.pool, this.concurrency, this.tracker := pool, concurrency, tracker;
      if pool == null && concurrency == null && tracker == null {
        dispatcher := null;
      } else {
        dispatcher := new Dispatcher(backend, concurrency, pool, tracker);
      }
    }

    method RegisterHandler(jobType: Id)
      modifies this
      ensures handlers == old(handlers) + {jobType}
    {
      handlers := handlers + {jobType};
    }

    ghost predicate Valid()
      reads backend
    {
      && backend.Valid()
      && (dispatcher != null ==>
            && dispatcher.backend == backend && dispatcher.concurrency == concurrency
            && dispatcher.pool == pool && dispatcher.tracker == tracker)
    }

    ghost function ConfigView(): Config
      reads this, fallback
    {
      Config(if dispatcher == null then None else Some(dispatcher.GateView()), queueName, handlers, hasTimeout,
             if fallback == null then None else Some(fallback.policies), owner)
    }

    ghost function SlotView(): SlotState
      reads concurrency, pool
    {
      SlotsOf(concurrency, pool)
    }

    ghost function EdgeView(): Edges
      reads tracker
    {
      EdgesOf(tracker)
    }

    ghost function WorldView(): World
      reads backend, backend.jobs.Values, concurrency, pool, tracker
    {
      World(backend.Contents(), SlotView(), EdgeView())
    }

    method HandleFailure(job: Job, outcome: HandlerOutcome, turn: Turn) returns (r: RunResult)
      requires backend.Valid() && backend.Holds(job)
      modifies backend, backend.jobs.Values
      ensures backend.Valid()
      ensures Ending(backend.Contents(), r) == Fail(ConfigView(), old(backend.Contents()), job.id, outcome, turn)
    {
      if outcome == TimesOut {
        var _ := backend.UpdateStatus(job.id, Timeout);
      }
      if fallback == null {
        var _ := backend.UpdateStatus(job.id, Failed);
        return Raised(ErrorOf(outcome));
      }
      var applied := fallback.Apply(backend, job, turn.freshId, turn.now, turn.notifierFails);
      match applied
      case NotifierRaised => return Raised(NotifierError);
      case Decided(decision) =>
        if decision.shouldRaise {
          return Raised(ErrorOf(outcome));
        }
        return Processed(true);
    }

    /** The handler's outcome, settled. */
    method RunHandler(job: Job, turn: Turn) returns (r: RunResult)
      requires backend.Valid() && backend.Holds(job)
      modifies backend, backend.jobs.Values
      ensures backend.Valid()
      ensures Ending(backend.Contents(), r) == Execute(ConfigView(), old(backend.Contents()), job.id, turn)
    {
      var outcome := if turn.outcome == TimesOut && !hasTimeout then Completes else turn.outcome;
      if outcome == Completes {
        var _ := backend.UpdateStatus(job.id, Succeeded);
        return Processed(true);
      }
      r := HandleFailure(job, outcome, turn);
    }

    method SelectJobs() returns (jobs: seq<Job>)
      requires Valid()
      modifies concurrency, pool
      ensures Selection(JobIds(jobs), SlotView()) == Choose(ConfigView(), old(WorldView()))
      ensures WorldView() == old(WorldView()).(slots := Choose(ConfigView(), old(WorldView())).slots)
      ensures forall job :: job in jobs ==> backend.Holds(job)
    {
      if dispatcher != null {
        jobs := dispatcher.SelectEligible(1, queueName);
      } else {
        jobs := backend.DequeueJobs(1, None, queueName);
        assert JobIds(jobs) == Dequeue(backend.Contents(), 1, None, queueName);
      }
    }

    /** The claim, after a rival may have come first. */
    method ClaimAfterRival(job: Job, rival: Option<Id>) returns (claimed: bool)
      requires backend.Valid()
      modifies backend.jobs.Values, backend`log
      ensures backend.Valid() && backend.jobs == old(backend.jobs)
      ensures claimed <==> CanClaim(Rivalled(old(backend.Contents()), job.id, rival), job.id)
      ensures backend.Contents() == Claim(Rivalled(old(backend.Contents()), job.id, rival), job.id, owner)
      ensures SlotView() == old(SlotView()) && EdgeView() == old(EdgeView())
    {
      if rival.Some? {
        var _ := backend.ClaimJob(job.id, rival.value);
      }
      claimed := backend.ClaimJob(job.id, owner);
    }

    method SettleSlots(job: Job)
      requires Valid()
      modifies concurrency, pool
      ensures Valid()
      ensures SlotView() == Settle(ConfigView(), old(SlotView()), job.id, job.jobType)
      ensures backend.Contents() == old(backend.Contents()) && EdgeView() == old(EdgeView())
    {
      if dispatcher != null {
        dispatcher.ReleaseJob(job);
      }
    }

    /** The `try` block with its `finally`. */
    method RunAndSettle(job: Job, turn: Turn) returns (r: RunResult)
      requires Valid() && backend.Holds(job)
      modifies backend, backend.jobs.Values, concurrency, pool
      ensures Valid()
      ensures Ending(backend.Contents(), r) == Execute(ConfigView(), old(backend.Contents()), job.id, turn)
      ensures SlotView() == Settle(ConfigView(), old(SlotView()), job.id, job.jobType)
      ensures EdgeView() == old(EdgeView())
    {
      r := RunHandler(job, turn);
      assert SlotView() == old(SlotView());
      SettleSlots(job);
    }

    /** Claim the selected job, run it, settle it, release its slots. */
    method ProceedWith(job: Job, turn: Turn) returns (r: RunResult)
      requires Valid() && backend.Holds(job)
      modifies backend, backend.jobs.Values, concurrency, pool
      ensures Valid()
      ensures Step(WorldView(), r) == Proceed(ConfigView(), old(WorldView()), job.id, turn)
    {
      var claimed := ClaimAfterRival(job, turn.rival);
      if !claimed {
        SettleSlots(job);
        return Processed(false);
      }
      if job.jobType !in handlers {
        return Raised(UnknownJobType);
      }
      r := RunAndSettle(job, turn);
    }

    method RunTurn(turn: Turn) returns (r: RunResult)
      requires Valid()
      modifies backend, backend.jobs.Values, concurrency, pool
      ensures Valid()
      ensures Step(WorldView(), r) == RunOnce(ConfigView(), old(WorldView()), turn)
    {
      if !turn.authorised {
        return Raised(PermissionDenied);
      }
      ghost var cfg, w := ConfigView(), WorldView();
      var jobs := SelectJobs();
      if jobs == [] {
        return Processed(false);
      }
      TurnProceeds(cfg, w, turn, jobs[0].id);
      r := ProceedWith(jobs[0], turn);
    }
  }
}
