/** What holds over every interleaving of submits and worker steps. */
module SharedTheorems {
  import opened Basics
  import opened JobStates
  import opened MemoryBackend
  import opened DependencyTracking
  import opened Dispatching
  import opened Working
  import opened FallbackPolicies
  import opened SharedRuns

  /** An empty backend and nobody at work. */
  const EMPTY_START := Shared(EMPTY_STORE, map[], map[])

  ghost predicate IsRun(s: Shared, ms: seq<Move>)
    requires Inv(s)
    decreases |ms|
  {
    ms == [] ||
    (Enabled(s, ms[0]) && (MoveKeepsInv(s, ms[0]); IsRun(Next(s, ms[0]), ms[1..])))
  }

  ghost function Final(s: Shared, ms: seq<Move>): Shared
    requires Inv(s) && IsRun(s, ms)
    decreases |ms|
  {
    if ms == [] then s
    else
      MoveKeepsInv(s, ms[0]);
      Final(Next(s, ms[0]), ms[1..])
  }

  lemma {:induction false} RunsKeepInv(s: Shared, ms: seq<Move>)
    requires Inv(s) && IsRun(s, ms)
    ensures Inv(Final(s, ms))
    decreases |ms|
  {
    if ms != [] {
      MoveKeepsInv(s, ms[0]);
      RunsKeepInv(Next(s, ms[0]), ms[1..]);
    }
  }

  // ---- Status histories ----

  /** Read in order, the writes that name `id` start at `from`, each begins where the last one
      ended, each is an entry of the transition table, and they end at `to`. */
  ghost predicate Leads(from: JobStatus, log: seq<Write>, id: Id, to: JobStatus)
    decreases |log|
  {
    if log == [] then from == to
    else if log[0].id == id then
      log[0].from == from && CanTransition(from, log[0].to) && Leads(log[0].to, log[1..], id, to)
    else Leads(from, log[1..], id, to)
  }

  /** The status of a job, or the one it will be stored with. */
  function StatusIn(st: Store, id: Id): JobStatus {
    if id in st.jobs then st.jobs[id].status else Queued
  }

  /** Every write of `b` that `a` had not made yet is an entry of the table for a stored job. */
  ghost predicate NewWritesAllowed(a: Store, b: Store) {
    && a.log <= b.log
    && forall i :: |a.log| <= i < |b.log| ==> b.log[i].id in b.jobs && CanTransition(b.log[i].from, b.log[i].to)
  }

  /** From `a` to `b` no job went away, every write is allowed, and the writes take every job of
      `b`, old or new, along an allowed path: an old job from its old status, a new one from
      queued, each to its status in `b`. */
  ghost predicate LegallyEvolved(a: Store, b: Store) {
    && NewWritesAllowed(a, b)
    && a.jobs.Keys <= b.jobs.Keys
    && forall id :: id in b.jobs ==> Leads(StatusIn(a, id), b.log[|a.log|..], id, b.jobs[id].status)
  }

  /** The statuses a job goes through, read off the writes that name it. */
  ghost function PathOf(from: JobStatus, log: seq<Write>, id: Id): (p: seq<JobStatus>)
    ensures p != [] && p[0] == from
    decreases |log|
  {
    if log == [] then [from]
    else if log[0].id == id then [from] + PathOf(log[0].to, log[1..], id)
    else PathOf(from, log[1..], id)
  }

  /** Such writes spell out a path of the transition table. */
  lemma {:induction false} LeadsIsALegalPath(from: JobStatus, log: seq<Write>, id: Id, to: JobStatus)
    requires Leads(from, log, id, to)
    ensures
      var p := PathOf(from, log, id);
      IsLegalPath(p) && p[|p| - 1] == to
    decreases |log|
  {
    if log != [] {
      var next := if log[0].id == id then log[0].to else from;
      LeadsIsALegalPath(next, log[1..], id, to);
      var rest, p := PathOf(next, log[1..], id), PathOf(from, log, id);
      if log[0].id == id {
        forall i | 0 < i < |p| ensures CanTransition(p[i - 1], p[i]) {
          assert i > 1 ==> CanTransition(rest[i - 2], rest[i - 1]);
        }
      }
    }
  }

  lemma {:induction false} LeadsNowhere(from: JobStatus, log: seq<Write>, id: Id)
    requires forall i :: 0 <= i < |log| ==> log[i].id != id
    ensures Leads(from, log, id, from)
    decreases |log|
  {
    if log != [] {
      LeadsNowhere(from, log[1..], id);
    }
  }

  lemma {:induction false} LeadsConcat(from: JobStatus, a: seq<Write>, mid: JobStatus, b: seq<Write>,
                                       id: Id, to: JobStatus)
    requires Leads(from, a, id, mid) && Leads(mid, b, id, to)
    ensures Leads(from, a + b, id, to)
    decreases |a|
  {
    if a == [] {
      assert a + b == b;
    } else {
      assert (a + b)[1..] == a[1..] + b;
      LeadsConcat(if a[0].id == id then a[0].to else from, a[1..], mid, b, id, to);
    }
  }

  function WritesOf(st: Store, e: Effect): seq<Write>
    requires e.touched.Some? ==> e.touched.value in st.jobs
  {
    if e.touched == None then [] else [Write(e.touched.value, st.jobs[e.touched.value].status, e.to)]
  }

  lemma Unchanged(st: Store)
    ensures LegallyEvolved(st, st)
  {
    assert st.log[|st.log|..] == [];
  }

  /** One step whose write is allowed is an allowed evolution. */
  lemma EffectEvolves(st: Store, e: Effect)
    requires ValidStore(st) && EffectFits(st, e)
    requires e.touched.Some? ==> CanTransition(st.jobs[e.touched.value].status, e.to)
    ensures LegallyEvolved(st, ApplyEffect(st, e))
  {
    var z := ApplyEffect(st, e);
    EffectKeepsJobs(st, e);
    assert z.log == st.log + WritesOf(st, e);
    assert z.log[|st.log|..] == WritesOf(st, e);
    assert e.touched.Some? ==> WritesOf(st, e)[1..] == [];
  }

  lemma PathsCompose(a: Store, b: Store, c: Store, id: Id)
    requires LegallyEvolved(a, b) && LegallyEvolved(b, c) && id in c.jobs
    ensures Leads(StatusIn(a, id), b.log[|a.log|..] + c.log[|b.log|..], id, c.jobs[id].status)
  {
    var first := b.log[|a.log|..];
    if id !in b.jobs {
      forall i | 0 <= i < |first| ensures first[i].id != id {
        assert first[i] == b.log[|a.log| + i];
      }
      LeadsNowhere(Queued, first, id);
    }
    LeadsConcat(StatusIn(a, id), first, StatusIn(b, id), c.log[|b.log|..], id, c.jobs[id].status);
  }

  /** Allowed evolutions compose. */
  lemma EvolutionsCompose(a: Store, b: Store, c: Store)
    requires LegallyEvolved(a, b) && LegallyEvolved(b, c)
    ensures LegallyEvolved(a, c)
  {
    assert c.log[|a.log|..] == b.log[|a.log|..] + c.log[|b.log|..];
    forall i | |a.log| <= i < |c.log| ensures c.log[i].id in c.jobs && CanTransition(c.log[i].from, c.log[i].to) {
      if i < |b.log| {
        assert c.log[i] == b.log[i];
      }
    }
    forall id | id in c.jobs ensures Leads(StatusIn(a, id), c.log[|a.log|..], id, c.jobs[id].status) {
      PathsCompose(a, b, c, id);
    }
  }

  lemma MoveFollowsTheTable(s: Shared, m: Move)
    requires Inv(s) && Enabled(s, m)
    ensures LegallyEvolved(s.store, Next(s, m).store)
  {
    MoveIsItsEffect(s, m);
    EffectIsLegal(s, m);
    EffectEvolves(s.store, EffectOf(s, m));
  }

  /** Every status write of every run is an entry of the transition table, and the writes take
      every job, whenever it was submitted or dead-lettered, along an allowed path. */
  lemma {:induction false} RunsFollowTheTable(s: Shared, ms: seq<Move>)
    requires Inv(s) && IsRun(s, ms)
    ensures LegallyEvolved(s.store, Final(s, ms).store)
    decreases |ms|
  {
    if ms == [] {
      Unchanged(s.store);
    } else {
      MoveKeepsInv(s, ms[0]);
      MoveFollowsTheTable(s, ms[0]);
      RunsFollowTheTable(Next(s, ms[0]), ms[1..]);
      EvolutionsCompose(s.store, Next(s, ms[0]).store, Final(s, ms).store);
    }
  }

  /** The moves are a run of an empty backend with no worker busy. */
  ghost predicate StartOfRuns(ms: seq<Move>) {
    Inv(EMPTY_START) && IsRun(EMPTY_START, ms)
  }

  /** From an empty backend: every write of the run is allowed, and every job stored at its end
      came in queued and went along the table to the status it has. */
  lemma RunsFromEmptyFollowTheTable(ms: seq<Move>)
    requires StartOfRuns(ms)
    ensures
      var z := Final(EMPTY_START, ms).store;
      && (forall i :: 0 <= i < |z.log| ==> CanTransition(z.log[i].from, z.log[i].to))
      && (forall id :: id in z.jobs ==>
            var p := PathOf(Queued, z.log, id);
            IsLegalPath(p) && p[0] == Queued && p[|p| - 1] == z.jobs[id].status)
  {
    RunsFollowTheTable(EMPTY_START, ms);
    var z := Final(EMPTY_START, ms).store;
    assert z.log[0..] == z.log;
    forall id | id in z.jobs
      ensures
        var p := PathOf(Queued, z.log, id);
        IsLegalPath(p) && p[0] == Queued && p[|p| - 1] == z.jobs[id].status
    {
      LeadsIsALegalPath(Queued, z.log, id, z.jobs[id].status);
    }
  }

  // ---- Dependency safety ----

  /** A claim that succeeds finds all registered dependencies of its job succeeded. */
  lemma ClaimIsSafe(s: Shared, worker: Id)
    requires Inv(s) && PhaseOf(s, worker).Chosen? && CanClaim(s.store, PhaseOf(s, worker).id)
    ensures forall d :: d in Deps(s.edges, PhaseOf(s, worker).id) ==>
              d in s.store.jobs && s.store.jobs[d].status == Succeeded
  {
    assert Honest(s.phases[worker], s.store, s.edges);
    var id := PhaseOf(s, worker).id;
    forall d | d in Deps(s.edges, id) ensures d in s.store.jobs && s.store.jobs[d].status == Succeeded {
      assert d in StatusesOf(s.store) && StatusesOf(s.store)[d] == Succeeded;
    }
  }

  /** The worker has chosen a job, and could it claim that job now, all its dependencies have
      succeeded. */
  ghost predicate ClaimableOnlyWhenReady(s: Shared, worker: Id) {
    PhaseOf(s, worker).Chosen? &&
    (CanClaim(s.store, PhaseOf(s, worker).id) ==>
       forall d :: d in Deps(s.edges, PhaseOf(s, worker).id) ==>
         d in s.store.jobs && s.store.jobs[d].status == Succeeded)
  }

  /** Every claim of the run is made in such a state. */
  ghost predicate EveryClaimIsReady(s: Shared, ms: seq<Move>)
    requires Inv(s) && IsRun(s, ms)
    decreases |ms|
  {
    ms == [] ||
    ((ms[0].ClaimMove? ==> ClaimableOnlyWhenReady(s, ms[0].worker))
     && (MoveKeepsInv(s, ms[0]); EveryClaimIsReady(Next(s, ms[0]), ms[1..])))
  }

  /** In every run, whenever a claim succeeds its job's dependencies have all succeeded. */
  lemma {:induction false} ClaimsAreSafe(s: Shared, ms: seq<Move>)
    requires Inv(s) && IsRun(s, ms)
    ensures EveryClaimIsReady(s, ms)
    decreases |ms|
  {
    if ms != [] {
      if ms[0].ClaimMove? && CanClaim(s.store, PhaseOf(s, ms[0].worker).id) {
        ClaimIsSafe(s, ms[0].worker);
      }
      MoveKeepsInv(s, ms[0]);
      ClaimsAreSafe(Next(s, ms[0]), ms[1..]);
    }
  }

  /** The same but for status and claimant. */
  ghost predicate SameTerms(a: JobRec, b: JobRec) {
    && a.jobType == b.jobType && a.queueName == b.queueName && a.priority == b.priority
    && a.createdAt == b.createdAt && a.dependsOn == b.dependsOn && a.resources == b.resources
    && a.source == b.source
  }

  lemma EffectKeepsTerms(st: Store, e: Effect, id: Id)
    requires EffectFits(st, e) && id in st.jobs
    ensures id in ApplyEffect(st, e).jobs && SameTerms(ApplyEffect(st, e).jobs[id], st.jobs[id])
  {
  }

  /** What was asked for stays asked for: in every run every stored job keeps its type, queue,
      priority, creation stamp, dependencies, resources and source. */
  lemma {:induction false} JobsKeepTheirTerms(s: Shared, ms: seq<Move>, id: Id)
    requires Inv(s) && IsRun(s, ms) && id in s.store.jobs
    ensures id in Final(s, ms).store.jobs && SameTerms(Final(s, ms).store.jobs[id], s.store.jobs[id])
    decreases |ms|
  {
    if ms != [] {
      MoveKeepsInv(s, ms[0]);
      MoveIsItsEffect(s, ms[0]);
      EffectKeepsTerms(s.store, EffectOf(s, ms[0]), id);
      JobsKeepTheirTerms(Next(s, ms[0]), ms[1..], id);
    }
  }

  /** Only queued, running and timed-out jobs change status: a job that succeeded, failed or
      waits for a retry keeps that status in every run. */
  lemma {:induction false} SettledJobsStay(s: Shared, ms: seq<Move>, id: Id)
    requires Inv(s) && IsRun(s, ms) && id in s.store.jobs
    requires s.store.jobs[id].status !in {Queued, Running, Timeout}
    ensures id in Final(s, ms).store.jobs && Final(s, ms).store.jobs[id].status == s.store.jobs[id].status
    decreases |ms|
  {
    if ms != [] {
      MoveKeepsInv(s, ms[0]);
      MoveIsItsEffect(s, ms[0]);
      EffectIsLegal(s, ms[0]);
      EffectKeepsJobs(s.store, EffectOf(s, ms[0]));
      SettledJobsStay(Next(s, ms[0]), ms[1..], id);
    }
  }

  /** A status from which success can no longer come. */
  predicate Lost(status: JobStatus) {
    status !in {Queued, Running, Succeeded}
  }

  lemma MoveKeepsLost(s: Shared, m: Move, d: Id)
    requires Inv(s) && Enabled(s, m) && d in s.store.jobs && Lost(s.store.jobs[d].status)
    ensures d in Next(s, m).store.jobs && Lost(Next(s, m).store.jobs[d].status)
  {
    MoveIsItsEffect(s, m);
    EffectIsLegal(s, m);
    EffectKeepsJobs(s.store, EffectOf(s, m));
  }

  lemma BlockedIsNotTouched(s: Shared, m: Move, id: Id, d: Id)
    requires Inv(s) && Enabled(s, m)
    requires id in s.store.jobs && s.store.jobs[id].status == Queued
    requires d in Deps(s.edges, id) && d in s.store.jobs && Lost(s.store.jobs[d].status)
    ensures EffectOf(s, m).touched != Some(id)
  {
    EffectIsLegal(s, m);
    if EffectOf(s, m).touched == Some(id) {
      ClaimIsSafe(s, m.worker);
    }
  }

  lemma MoveLeavesBlocked(s: Shared, m: Move, id: Id, d: Id)
    requires Inv(s) && Enabled(s, m)
    requires id in s.store.jobs && s.store.jobs[id].status == Queued
    requires d in Deps(s.edges, id) && d in s.store.jobs && Lost(s.store.jobs[d].status)
    ensures id in Next(s, m).store.jobs && Next(s, m).store.jobs[id].status == Queued
    ensures d in Deps(Next(s, m).edges, id)
  {
    BlockedIsNotTouched(s, m, id, d);
    MoveIsItsEffect(s, m);
    EffectKeepsJobs(s.store, EffectOf(s, m));
  }

  /** A queued job with a dependency that has been given up stays queued in every run. */
  lemma {:induction false} FailedDependencyBlocksForever(s: Shared, ms: seq<Move>, id: Id, d: Id)
    requires Inv(s) && IsRun(s, ms)
    requires id in s.store.jobs && s.store.jobs[id].status == Queued
    requires d in Deps(s.edges, id) && d in s.store.jobs && Lost(s.store.jobs[d].status)
    ensures id in Final(s, ms).store.jobs && Final(s, ms).store.jobs[id].status == Queued
    decreases |ms|
  {
    if ms != [] {
      MoveKeepsInv(s, ms[0]);
      MoveKeepsLost(s, ms[0], d);
      MoveLeavesBlocked(s, ms[0], id, d);
      FailedDependencyBlocksForever(Next(s, ms[0]), ms[1..], id, d);
    }
  }

  lemma GivenUpIsLost(d: Id, st: Store)
    requires HasGivenUp(d, StatusesOf(st))
    ensures d in st.jobs && Lost(st.jobs[d].status)
  {
  }

  /** What `has_failed_dependency` reports is final: a queued job with a dependency on its list
      stays queued in every run. */
  lemma ReportedFailureIsFinal(s: Shared, ms: seq<Move>, id: Id)
    requires Inv(s) && IsRun(s, ms)
    requires id in s.store.jobs && s.store.jobs[id].status == Queued
    requires GivenUp(Deps(s.edges, id), StatusesOf(s.store)) != []
    ensures id in Final(s, ms).store.jobs && Final(s, ms).store.jobs[id].status == Queued
  {
    var d := GivenUp(Deps(s.edges, id), StatusesOf(s.store))[0];
    assert d in GivenUp(Deps(s.edges, id), StatusesOf(s.store));
    GivenUpIsLost(d, s.store);
    FailedDependencyBlocksForever(s, ms, id, d);
  }

  // ---- Claim exclusivity ----

  ghost function Claims(log: seq<Write>, id: Id): nat {
    if log == [] then 0
    else Claims(log[..|log| - 1], id) + if log[|log| - 1] == Write(id, Queued, Running) then 1 else 0
  }

  /** No job has been claimed twice, and one still queued has not been claimed at all. */
  ghost predicate ClaimedAtMostOnce(st: Store) {
    forall id :: Claims(st.log, id) <= 1 && (id !in st.jobs || st.jobs[id].status == Queued ==> Claims(st.log, id) == 0)
  }

  lemma ClaimsAppend(log: seq<Write>, w: Write, id: Id)
    ensures Claims(log + [w], id) == Claims(log, id) + if w == Write(id, Queued, Running) then 1 else 0
  {
    assert (log + [w])[..|log|] == log;
  }

  lemma EffectKeepsClaimedOnce(st: Store, e: Effect)
    requires EffectFits(st, e) && ClaimedAtMostOnce(st)
    requires e.touched.Some? ==> e.to != Queued && (e.to == Running <==> st.jobs[e.touched.value].status == Queued)
    ensures ClaimedAtMostOnce(ApplyEffect(st, e))
  {
    if e.touched.Some? {
      forall id ensures Claims(ApplyEffect(st, e).log, id) ==
        Claims(st.log, id) + if e.touched == Some(id) && e.to == Running then 1 else 0
      {
        ClaimsAppend(st.log, WritesOf(st, e)[0], id);
      }
    }
  }

  lemma MoveKeepsClaimedOnce(s: Shared, m: Move)
    requires Inv(s) && Enabled(s, m) && ClaimedAtMostOnce(s.store)
    ensures ClaimedAtMostOnce(Next(s, m).store)
  {
    MoveIsItsEffect(s, m);
    EffectIsLegal(s, m);
    EffectKeepsClaimedOnce(s.store, EffectOf(s, m));
  }

  /** From an empty backend, over every interleaving of any number of workers, each job is
      claimed at most once. */
  lemma {:induction false} EachJobIsClaimedAtMostOnce(s: Shared, ms: seq<Move>)
    requires Inv(s) && IsRun(s, ms) && ClaimedAtMostOnce(s.store)
    ensures ClaimedAtMostOnce(Final(s, ms).store)
    decreases |ms|
  {
    if ms != [] {
      MoveKeepsInv(s, ms[0]);
      MoveKeepsClaimedOnce(s, ms[0]);
      EachJobIsClaimedAtMostOnce(Next(s, ms[0]), ms[1..]);
    }
  }

  lemma StartIsGood()
    ensures Inv(EMPTY_START) && ClaimedAtMostOnce(EMPTY_START.store)
  {
  }

  /** In every run from an empty backend no job is claimed twice, and one still queued at its end
      has not been claimed at all. */
  lemma RunsFromEmptyClaimOnce(ms: seq<Move>)
    requires StartOfRuns(ms)
    ensures
      var z := Final(EMPTY_START, ms).store;
      forall id :: Claims(z.log, id) <= 1 && (CanClaim(z, id) ==> Claims(z.log, id) == 0)
  {
    StartIsGood();
    EachJobIsClaimedAtMostOnce(EMPTY_START, ms);
  }

  // ---- One worker turn is a run of these steps ----

  /** The moves a turn goes through once `id` has been selected. */
  function TurnMoves(cfg: Config, g: Gates, w: World, id: Id, turn: Turn): seq<Move>
    requires id in w.store.jobs
  {
    var select := SelectMove(cfg.owner, g, w.slots, 1, cfg.queueName, 0);
    if turn.rival.Some? then
      [select, SelectMove(turn.rival.value, g, w.slots, 1, cfg.queueName, 0), ClaimMove(turn.rival.value),
       ClaimMove(cfg.owner)]
    else if w.store.jobs[id].jobType !in cfg.handlers then [select, ClaimMove(cfg.owner), AbandonMove(cfg.owner)]
    else
      var fail := FailMove(cfg.owner, cfg.policies, turn.freshId, turn.now);
      [select, ClaimMove(cfg.owner)] +
      match Ends(cfg, turn.outcome)
      case Completes => [SucceedMove(cfg.owner)]
      case Raises => [fail]
      case TimesOut => [TimeoutMove(cfg.owner), fail]
  }

  /** What is left of a run once its first move is made. */
  lemma UnfoldRun(s: Shared, m: Move, ms: seq<Move>)
    requires Inv(s) && Enabled(s, m)
    ensures Inv(Next(s, m))
    ensures IsRun(s, [m] + ms) <==> IsRun(Next(s, m), ms)
    ensures IsRun(s, [m] + ms) ==> Final(s, [m] + ms) == Final(Next(s, m), ms)
  {
    MoveKeepsInv(s, m);
    assert ([m] + ms)[1..] == ms;
  }

  /** The failure write that ends a job its worker still holds. */
  lemma FailingIsAMove(cfg: Config, s: Shared, id: Id, turn: Turn)
    requires Inv(s) && Holds(PhaseOf(s, cfg.owner), id) && IsNew(s, turn.freshId)
    ensures
      var fail := FailMove(cfg.owner, cfg.policies, turn.freshId, turn.now);
      && IsRun(s, [fail]) && id in s.store.jobs
      && Final(s, [fail]).store == FailStore(s.store, id, cfg.policies, turn.freshId, turn.now)
      && PhaseOf(Final(s, [fail]), cfg.owner) == Idle
  {
    assert Honest(s.phases[cfg.owner], s.store, s.edges);
    UnfoldRun(s, FailMove(cfg.owner, cfg.policies, turn.freshId, turn.now), []);
  }

  lemma FailIsFailStore(cfg: Config, st: Store, id: Id, outcome: HandlerOutcome, turn: Turn)
    requires id in st.jobs
    ensures
      var marked := if outcome == TimesOut then SetStatus(st, id, Timeout) else st;
      Fail(cfg, st, id, outcome, turn).store == FailStore(marked, id, cfg.policies, turn.freshId, turn.now)
  {
  }

  /** From a claimed job on, the handler's end is one or two moves. */
  lemma ExecutionIsMoves(cfg: Config, s: Shared, id: Id, turn: Turn, tail: seq<Move>)
    requires Inv(s) && PhaseOf(s, cfg.owner) == Executing(id) && IsNew(s, turn.freshId)
    requires
      var fail := FailMove(cfg.owner, cfg.policies, turn.freshId, turn.now);
      tail == match Ends(cfg, turn.outcome)
              case Completes => [SucceedMove(cfg.owner)]
              case Raises => [fail]
              case TimesOut => [TimeoutMove(cfg.owner), fail]
    ensures IsRun(s, tail) && id in s.store.jobs
    ensures Final(s, tail).store == Execute(cfg, s.store, id, turn).store
    ensures PhaseOf(Final(s, tail), cfg.owner) == Idle
  {
    assert Honest(s.phases[cfg.owner], s.store, s.edges);
    match Ends(cfg, turn.outcome)
    case Completes => UnfoldRun(s, SucceedMove(cfg.owner), []);
    case Raises =>
      FailingIsAMove(cfg, s, id, turn);
      FailIsFailStore(cfg, s.store, id, Raises, turn);
    case TimesOut =>
      var t := TimeoutMove(cfg.owner);
      UnfoldRun(s, t, tail[1..]);
      assert tail == [t] + tail[1..];
      FailingIsAMove(cfg, Next(s, t), id, turn);
      FailIsFailStore(cfg, s.store, id, TimesOut, turn);
  }

  /** What the store looks like once `id` has been selected by the owner. */
  ghost predicate JustSelected(s: Shared, cfg: Config, w: World, id: Id) {
    Inv(s) && s.store == w.store && s.edges == w.edges && PhaseOf(s, cfg.owner) == Chosen(id)
    && id in w.store.jobs && CanClaim(w.store, id)
  }

  lemma UnhandledIsARun(cfg: Config, s: Shared, w: World, id: Id, turn: Turn)
    requires JustSelected(s, cfg, w, id) && turn.rival == None && w.store.jobs[id].jobType !in cfg.handlers
    ensures
      var ms := [ClaimMove(cfg.owner), AbandonMove(cfg.owner)];
      IsRun(s, ms) && Final(s, ms).store == Proceed(cfg, w, id, turn).world.store
      && PhaseOf(Final(s, ms), cfg.owner) == Idle
  {
    UnfoldRun(s, ClaimMove(cfg.owner), [AbandonMove(cfg.owner)]);
    assert [ClaimMove(cfg.owner)] + [AbandonMove(cfg.owner)] == [ClaimMove(cfg.owner), AbandonMove(cfg.owner)];
    UnfoldRun(Next(s, ClaimMove(cfg.owner)), AbandonMove(cfg.owner), []);
  }

  lemma HandledIsARun(cfg: Config, s: Shared, w: World, id: Id, turn: Turn, tail: seq<Move>)
    requires JustSelected(s, cfg, w, id) && turn.rival == None && w.store.jobs[id].jobType in cfg.handlers
    requires IsNew(s, turn.freshId)
    requires
      var fail := FailMove(cfg.owner, cfg.policies, turn.freshId, turn.now);
      tail == match Ends(cfg, turn.outcome)
              case Completes => [SucceedMove(cfg.owner)]
              case Raises => [fail]
              case TimesOut => [TimeoutMove(cfg.owner), fail]
    ensures
      var ms := [ClaimMove(cfg.owner)] + tail;
      IsRun(s, ms) && Final(s, ms).store == Proceed(cfg, w, id, turn).world.store
      && PhaseOf(Final(s, ms), cfg.owner) == Idle
  {
    UnfoldRun(s, ClaimMove(cfg.owner), tail);
    ExecutionIsMoves(cfg, Next(s, ClaimMove(cfg.owner)), id, turn, tail);
  }

  lemma RivalledIsARun(cfg: Config, g: Gates, s: Shared, w: World, id: Id, turn: Turn)
    requires JustSelected(s, cfg, w, id) && turn.rival.Some? && g.tracker
    requires turn.rival.value != cfg.owner && PhaseOf(s, turn.rival.value) == Idle
    requires Select(g, w.store, w.edges, w.slots, 1, cfg.queueName).ids != []
    requires Select(g, w.store, w.edges, w.slots, 1, cfg.queueName).ids[0] == id
    ensures
      var r := turn.rival.value;
      var ms := [SelectMove(r, g, w.slots, 1, cfg.queueName, 0), ClaimMove(r), ClaimMove(cfg.owner)];
      IsRun(s, ms) && Final(s, ms).store == Proceed(cfg, w, id, turn).world.store
      && PhaseOf(Final(s, ms), cfg.owner) == Idle
  {
    var r := turn.rival.value;
    var a, b, c := SelectMove(r, g, w.slots, 1, cfg.queueName, 0), ClaimMove(r), ClaimMove(cfg.owner);
    UnfoldRun(s, a, [b, c]);
    assert [a] + [b, c] == [a, b, c];
    ClaimRaceIsARun(cfg, Next(s, a), id, r);
  }

  /** Two workers hold the same choice: the first claim wins and the second is refused. */
  lemma ClaimRaceIsARun(cfg: Config, s: Shared, id: Id, rival: Id)
    requires Inv(s) && rival != cfg.owner && CanClaim(s.store, id)
    requires PhaseOf(s, rival) == Chosen(id) && PhaseOf(s, cfg.owner) == Chosen(id)
    ensures
      var ms := [ClaimMove(rival), ClaimMove(cfg.owner)];
      && IsRun(s, ms) && Final(s, ms).store == Claim(s.store, id, rival)
      && PhaseOf(Final(s, ms), cfg.owner) == Idle && PhaseOf(Final(s, ms), rival) == Executing(id)
  {
    UnfoldRun(s, ClaimMove(rival), [ClaimMove(cfg.owner)]);
    assert [ClaimMove(rival)] + [ClaimMove(cfg.owner)] == [ClaimMove(rival), ClaimMove(cfg.owner)];
    UnfoldRun(Next(s, ClaimMove(rival)), ClaimMove(cfg.owner), []);
  }

  /** Refinement: a turn of a worker with a tracker changes the store exactly as a run of the
      shared steps does, so everything proved about interleavings holds of it. */
  lemma TurnIsARun(cfg: Config, g: Gates, w: World, turn: Turn, s: Shared)
    requires Inv(s) && s.store == w.store && s.edges == w.edges
    requires cfg.gates == Some(g) && g.tracker && turn.authorised
    requires PhaseOf(s, cfg.owner) == Idle && IsNew(s, turn.freshId)
    requires turn.rival.Some? ==> turn.rival.value != cfg.owner && PhaseOf(s, turn.rival.value) == Idle
    requires Choose(cfg, w).ids != []
    ensures Choose(cfg, w).ids[0] in w.store.jobs
    ensures
      var ms := TurnMoves(cfg, g, w, Choose(cfg, w).ids[0], turn);
      && IsRun(s, ms)
      && Final(s, ms).store == RunOnce(cfg, w, turn).world.store
      && PhaseOf(Final(s, ms), cfg.owner) == Idle
  {
    var id := Choose(cfg, w).ids[0];
    ChosenIsWanted(cfg, w);
    assert id in Choose(cfg, w).ids;
    var ms := TurnMoves(cfg, g, w, id, turn);
    var select := SelectMove(cfg.owner, g, w.slots, 1, cfg.queueName, 0);
    UnfoldRun(s, select, ms[1..]);
    assert ms == [select] + ms[1..];
    ProceedIsARun(cfg, g, w, id, turn, Next(s, select), ms[1..]);
  }

  /** What a turn does to the store does not depend on the slots in use once its job is selected. */
  lemma SlotsDoNotMatter(cfg: Config, w: World, slots: SlotState, id: Id, turn: Turn)
    requires id in w.store.jobs
    ensures Proceed(cfg, w.(slots := slots), id, turn).world.store == Proceed(cfg, w, id, turn).world.store
  {
  }

  lemma ProceedIsARun(cfg: Config, g: Gates, w: World, id: Id, turn: Turn, s: Shared, ms: seq<Move>)
    requires JustSelected(s, cfg, w, id) && g.tracker && IsNew(s, turn.freshId)
    requires turn.rival.Some? ==> turn.rival.value != cfg.owner && PhaseOf(s, turn.rival.value) == Idle
    requires Select(g, w.store, w.edges, w.slots, 1, cfg.queueName).ids != []
    requires Select(g, w.store, w.edges, w.slots, 1, cfg.queueName).ids[0] == id
    requires ms == TurnMoves(cfg, g, w, id, turn)[1..]
    ensures IsRun(s, ms) && PhaseOf(Final(s, ms), cfg.owner) == Idle
    ensures forall slots :: Final(s, ms).store == Proceed(cfg, w.(slots := slots), id, turn).world.store
  {
    forall slots
      ensures Proceed(cfg, w.(slots := slots), id, turn).world.store == Proceed(cfg, w, id, turn).world.store
    {
      SlotsDoNotMatter(cfg, w, slots, id, turn);
    }
    if turn.rival.Some? {
      RivalledIsARun(cfg, g, s, w, id, turn);
    } else if w.store.jobs[id].jobType !in cfg.handlers {
      UnhandledIsARun(cfg, s, w, id, turn);
    } else {
      HandledIsARun(cfg, s, w, id, turn, ms[1..]);
      assert ms == [ClaimMove(cfg.owner)] + ms[1..];
    }
  }
}
