/** One worker's turns in sequence: slots are restored, statuses follow the table, queues drain. */
module WorkerRuns {
  import opened Basics
  import opened JobStates
  import opened MemoryBackend
  import opened DependencyTracking
  import opened Dispatching
  import opened FallbackPolicies
  import opened Working
  import opened SharedTheorems
  import Shared = SharedRuns
  import C = Concurrency
  import R = ResourcePools

  // ---- Slots ----

  /** Admitting the job would take at least one slot of some kind. */
  predicate TakesSlots(g: Gates, rec: JobRec) {
    g.concurrency.Some? || (g.pool.Some? && rec.resources != map[])
  }

  ghost predicate NoQueuedHolder(w: World) {
    forall id :: id in w.store.jobs && w.store.jobs[id].status == Queued ==> id !in w.slots.pool.holders
  }

  /** With `limit = 1` the greedy pass is one admission of the head job. */
  lemma ChoiceIsOneAdmission(cfg: Config, g: Gates, w: World)
    requires ValidStore(w.store) && cfg.gates == Some(g)
    ensures
      var c := Choose(cfg, w);
      if c.ids == [] then SameSlots(c.slots, w.slots)
      else
        var id := c.ids[0];
        && c.ids == [id] && IsWanted(w.store, id, None, cfg.queueName)
        && Fits(g, w.slots, w.store.jobs[id]) && c.slots == Admit(g, w.slots, id, w.store.jobs[id]).slots
  {
    var ids := Dequeue(w.store, 1, None, cfg.queueName);
    DequeuedAreStored(w.store, 1, cfg.queueName);
    ChosenIsWanted(cfg, w);
    if ids != [] {
      assert |ids| == 1 && ids[0] in ids && ids[1..] == [];
      var a := Admit(g, w.slots, ids[0], w.store.jobs[ids[0]]);
      AdmitIsExact(g, w.slots, ids[0], w.store.jobs[ids[0]]);
      assert Greedy(g, w.store, w.edges, a.slots, ids[1..]) == Selection([], a.slots);
      assert Greedy(g, w.store, w.edges, w.slots, ids[1..]) == Selection([], w.slots);
    }
  }

  /** An admission followed by giving back leaves every counter and the holders as they were. */
  lemma AdmitThenGiveBack(g: Gates, s: SlotState, id: Id, rec: JobRec)
    requires Fits(g, s, rec) && id !in s.pool.holders
    ensures SameSlots(GiveBack(g, Admit(g, s, id, rec).slots, id, rec.jobType), s)
  {
    C.TakeThenGive(s.conc, TicketFor(rec.jobType));
    R.GrantThenFree(s.pool, id, rec.resources);
    assert s.pool.holders - {id} == s.pool.holders;
  }

  lemma AdmitShows(g: Gates, s: SlotState, id: Id, rec: JobRec)
    requires Fits(g, s, rec) && id !in s.pool.holders
    ensures SameSlots(Admit(g, s, id, rec).slots, s) <==> !TakesSlots(g, rec)
  {
    if g.pool.Some? && rec.resources != map[] {
      assert id in Admit(g, s, id, rec).slots.pool.holders;
    }
  }

  /** The selected job took slots, no rival claims it first, and its type has no handler. */
  ghost predicate StrandsSlots(cfg: Config, w: World, turn: Turn)
    requires ValidStore(w.store)
  {
    && turn.authorised && cfg.gates.Some? && turn.rival == None
    && Choose(cfg, w).ids != [] && Choose(cfg, w).ids[0] in w.store.jobs
    && var rec := w.store.jobs[Choose(cfg, w).ids[0]];
       rec.jobType !in cfg.handlers && TakesSlots(cfg.gates.value, rec)
  }

  lemma ProceedSettles(cfg: Config, w: World, id: Id, turn: Turn)
    requires id in w.store.jobs
    ensures
      var z := Proceed(cfg, w, id, turn);
      z.world.slots == if CanClaim(Rivalled(w.store, id, turn.rival), id) && w.store.jobs[id].jobType !in cfg.handlers
                       then w.slots else Settle(cfg, w.slots, id, w.store.jobs[id].jobType)
  {
  }

  /** A turn gives back every slot it took, on success, failure, timeout, lost claim or notifier
      error; it fails to do so exactly when the job took slots and has no registered handler,
      because the lookup comes before the `try`. */
  lemma TurnRestoresSlotsIff(cfg: Config, w: World, turn: Turn)
    requires ValidStore(w.store) && NoQueuedHolder(w)
    ensures SameSlots(RunOnce(cfg, w, turn).world.slots, w.slots) <==> !StrandsSlots(cfg, w, turn)
  {
    var c := Choose(cfg, w);
    if turn.authorised && c.ids != [] {
      ChosenIsWanted(cfg, w);
      assert c.ids[0] in c.ids;
      ProceedSettles(cfg, w.(slots := c.slots), c.ids[0], turn);
    }
    if turn.authorised && cfg.gates.Some? {
      var g := cfg.gates.value;
      ChoiceIsOneAdmission(cfg, g, w);
      if c.ids != [] {
        AdmitThenGiveBack(g, w.slots, c.ids[0], w.store.jobs[c.ids[0]]);
        AdmitShows(g, w.slots, c.ids[0], w.store.jobs[c.ids[0]]);
      }
    }
  }

  ghost function RunAll(cfg: Config, w: World, turns: seq<Turn>): World
    requires ValidStore(w.store)
    decreases |turns|
  {
    if turns == [] then w
    else
      TurnKeepsValid(cfg, w, turns[0]);
      RunAll(cfg, RunOnce(cfg, w, turns[0]).world, turns[1..])
  }

  lemma TurnKeepsValid(cfg: Config, w: World, turn: Turn)
    requires ValidStore(w.store)
    ensures ValidStore(RunOnce(cfg, w, turn).world.store)
  {
    if turn.authorised && Choose(cfg, w).ids != [] {
      ChosenIsWanted(cfg, w);
      var id := Choose(cfg, w).ids[0];
      assert id in Choose(cfg, w).ids;
      var st := Rivalled(w.store, id, turn.rival);
      if CanClaim(st, id) {
        ExecuteKeepsValid(cfg, Claim(st, id, cfg.owner), id, turn);
      }
    }
  }

  lemma ExecuteKeepsValid(cfg: Config, st: Store, id: Id, turn: Turn)
    requires ValidStore(st) && id in st.jobs
    ensures ValidStore(Execute(cfg, st, id, turn).store)
  {
    var outcome := Ends(cfg, turn.outcome);
    var marked := if outcome == TimesOut then SetStatus(st, id, Timeout) else st;
    if cfg.policies.Some? {
      var p := PolicyFor(cfg.policies.value, st.jobs[id].jobType);
      PutKeepsValid(SetStatus(marked, id, Failed), turn.freshId,
                    DeadLetterRec(marked.jobs[id], p.deadLetterQueue, id, turn.now));
    }
  }

  ghost predicate AllHandled(cfg: Config, st: Store) {
    forall id :: id in st.jobs ==> st.jobs[id].jobType in cfg.handlers
  }

  lemma ExecuteKeepsHandled(cfg: Config, st: Store, id: Id, turn: Turn)
    requires AllHandled(cfg, st) && id in st.jobs
    ensures AllHandled(cfg, Execute(cfg, st, id, turn).store)
    ensures Execute(cfg, st, id, turn).result != Raised(UnknownJobType)
  {
  }

  lemma TurnKeepsHandled(cfg: Config, w: World, turn: Turn)
    requires ValidStore(w.store) && AllHandled(cfg, w.store)
    ensures AllHandled(cfg, RunOnce(cfg, w, turn).world.store)
    ensures RunOnce(cfg, w, turn).result != Raised(UnknownJobType)
  {
    if turn.authorised && Choose(cfg, w).ids != [] {
      ChosenIsWanted(cfg, w);
      var id := Choose(cfg, w).ids[0];
      assert id in Choose(cfg, w).ids;
      var st := Rivalled(w.store, id, turn.rival);
      if CanClaim(st, id) {
        ExecuteKeepsHandled(cfg, Claim(st, id, cfg.owner), id, turn);
      }
    }
  }

  lemma ExecuteQueuesOnlyItsLetter(cfg: Config, st: Store, id: Id, turn: Turn)
    requires id in st.jobs
    ensures forall k :: CanClaim(Execute(cfg, st, id, turn).store, k) ==> CanClaim(st, k) || k == turn.freshId
  {
  }

  /** A turn queues nothing but its dead letter. */
  lemma TurnQueuesOnlyItsLetter(cfg: Config, w: World, turn: Turn)
    requires ValidStore(w.store)
    ensures forall id :: CanClaim(RunOnce(cfg, w, turn).world.store, id) ==> CanClaim(w.store, id) || id == turn.freshId
  {
    if turn.authorised && Choose(cfg, w).ids != [] {
      ChosenIsWanted(cfg, w);
      var id := Choose(cfg, w).ids[0];
      assert id in Choose(cfg, w).ids;
      ExecuteQueuesOnlyItsLetter(cfg, Claim(Rivalled(w.store, id, turn.rival), id, cfg.owner), id, turn);
    }
  }

  /** One turn with all handlers registered, and what the next one needs. */
  lemma TurnRestoresSlots(cfg: Config, w: World, turn: Turn)
    requires ValidStore(w.store) && AllHandled(cfg, w.store) && NoQueuedHolder(w)
    requires turn.freshId !in w.slots.pool.holders
    ensures SameSlots(RunOnce(cfg, w, turn).world.slots, w.slots) && NoQueuedHolder(RunOnce(cfg, w, turn).world)
  {
    TurnKeepsHandled(cfg, w, turn);
    TurnRestoresSlotsIff(cfg, w, turn);
    assert !StrandsSlots(cfg, w, turn);
    TurnQueuesOnlyItsLetter(cfg, w, turn);
    var z := RunOnce(cfg, w, turn).world;
    forall id | id in z.store.jobs && z.store.jobs[id].status == Queued ensures id !in z.slots.pool.holders {
      assert CanClaim(z.store, id);
    }
  }

  /** Over every run of turns with all handlers registered the slots end as they started, whatever
      others hold, as long as no queued or newly dead-lettered job holds any. */
  lemma {:induction false} RunsRestoreSlots(cfg: Config, w: World, turns: seq<Turn>)
    requires ValidStore(w.store) && AllHandled(cfg, w.store) && NoQueuedHolder(w)
    requires forall t :: t in turns ==> t.freshId !in w.slots.pool.holders
    ensures SameSlots(RunAll(cfg, w, turns).slots, w.slots)
    decreases |turns|
  {
    if turns != [] {
      TurnKeepsValid(cfg, w, turns[0]);
      TurnKeepsHandled(cfg, w, turns[0]);
      assert turns[0] in turns;
      TurnRestoresSlots(cfg, w, turns[0]);
      RunsRestoreSlots(cfg, RunOnce(cfg, w, turns[0]).world, turns[1..]);
    }
  }

  /** A queue of one job and a worker without handlers, under limits of one. */
  const ONE_WAITING := World(Store(map["a" := JobRec("t", "q", 0, 0, [], map[], None, Queued, None)], ["a"], []),
                            SlotState(C.NO_SLOTS, R.EMPTY_POOL), map[])
  const NO_HANDLERS := Config(Some(Gates(Some(C.Limits(1, 1, 1, 1)), None, false)), None, {}, false, None, "w")

  /** Its turn raises, leaves the job running and the only slot taken: nothing fits any more. */
  lemma UnhandledJobKeepsItsSlot(turn: Turn)
    requires turn.authorised && turn.rival == None
    ensures ValidStore(ONE_WAITING.store) && NoQueuedHolder(ONE_WAITING)
    ensures
      var z := RunOnce(NO_HANDLERS, ONE_WAITING, turn);
      && z.result == Raised(UnknownJobType) && z.world.store.jobs["a"].status == Running
      && z.world.slots.conc.global == 1 && !Fits(NO_HANDLERS.gates.value, z.world.slots, ONE_WAITING.store.jobs["a"])
  {
    var st, g := ONE_WAITING.store, NO_HANDLERS.gates.value;
    assert st.order[0] == "a";
    assert Elems(st.order) == st.jobs.Keys;
    RankingIsExact(st, None, None);
    assert IsWanted(st, "a", None, None);
    var ids := Dequeue(st, 1, None, None);
    assert "a" in IdsOf(Ranking(st, None, None));
    assert |ids| == 1 && ids[0] in IdsOf(Ranking(st, None, None));
    assert ids == ["a"] && ids[1..] == [];
    DequeuedAreStored(st, 1, None);
    ChoiceIsOneAdmission(NO_HANDLERS, g, ONE_WAITING);
    AdmitIsExact(g, ONE_WAITING.slots, "a", st.jobs["a"]);
    assert Choose(NO_HANDLERS, ONE_WAITING).ids == ["a"];
  }

  // ---- Statuses ----

  /** The edges a store's own dependency lists spell out. */
  function OwnEdges(st: Store): Edges {
    map id | id in st.jobs && st.jobs[id].dependsOn != [] :: st.jobs[id].dependsOn
  }

  lemma ClaimIsLegal(st: Store, id: Id, owner: Id)
    requires ValidStore(st)
    ensures ValidStore(Claim(st, id, owner)) && LegallyEvolved(st, Claim(st, id, owner))
  {
    if CanClaim(st, id) {
      EffectEvolves(st, Shared.Effect(Some(id), Running, Some(owner), None));
    } else {
      Unchanged(st);
    }
  }

  lemma ExecuteIsLegal(cfg: Config, st: Store, id: Id, turn: Turn)
    requires ValidStore(st) && id in st.jobs && st.jobs[id].status == Running && turn.freshId !in st.jobs
    ensures LegallyEvolved(st, Execute(cfg, st, id, turn).store)
  {
    var s := Shared.Shared(st, OwnEdges(st), map[cfg.owner := Shared.Executing(id)]);
    var fail := Shared.FailMove(cfg.owner, cfg.policies, turn.freshId, turn.now);
    var tail := match Ends(cfg, turn.outcome)
                case Completes => [Shared.SucceedMove(cfg.owner)]
                case Raises => [fail]
                case TimesOut => [Shared.TimeoutMove(cfg.owner), fail];
    assert Shared.Inv(s);
    ExecutionIsMoves(cfg, s, id, turn, tail);
    RunsFollowTheTable(s, tail);
  }

  /** Whatever a worker's configuration and however its turn ends, the turn's writes take every
      stored job along allowed transitions. */
  lemma TurnFollowsTheTable(cfg: Config, w: World, turn: Turn)
    requires ValidStore(w.store) && turn.freshId !in w.store.jobs
    ensures LegallyEvolved(w.store, RunOnce(cfg, w, turn).world.store)
  {
    Unchanged(w.store);
    if turn.authorised && Choose(cfg, w).ids != [] {
      var id := Choose(cfg, w).ids[0];
      ChosenIsWanted(cfg, w);
      assert id in Choose(cfg, w).ids;
      var st := Rivalled(w.store, id, turn.rival);
      if turn.rival.Some? {
        ClaimIsLegal(w.store, id, turn.rival.value);
      }
      if CanClaim(st, id) {
        var claimed := Claim(st, id, cfg.owner);
        ClaimIsLegal(st, id, cfg.owner);
        EvolutionsCompose(w.store, st, claimed);
        ExecuteIsLegal(cfg, claimed, id, turn);
        EvolutionsCompose(w.store, claimed, Execute(cfg, claimed, id, turn).store);
      }
    }
  }

  /** Each dead-letter id is new when it is drawn. */
  ghost predicate FreshIds(cfg: Config, w: World, turns: seq<Turn>)
    requires ValidStore(w.store)
    decreases |turns|
  {
    turns == [] ||
    (turns[0].freshId !in w.store.jobs
     && (TurnKeepsValid(cfg, w, turns[0]); FreshIds(cfg, RunOnce(cfg, w, turns[0]).world, turns[1..])))
  }

  lemma {:induction false} RunsFollowTheTableToo(cfg: Config, w: World, turns: seq<Turn>)
    requires ValidStore(w.store) && FreshIds(cfg, w, turns)
    ensures LegallyEvolved(w.store, RunAll(cfg, w, turns).store)
    decreases |turns|
  {
    if turns == [] {
      Unchanged(w.store);
    } else {
      TurnKeepsValid(cfg, w, turns[0]);
      TurnFollowsTheTable(cfg, w, turns[0]);
      RunsFollowTheTableToo(cfg, RunOnce(cfg, w, turns[0]).world, turns[1..]);
      EvolutionsCompose(w.store, RunOnce(cfg, w, turns[0]).world.store, RunAll(cfg, w, turns).store);
    }
  }

  // ---- Draining a queue ----

  /** The queued jobs of queue `q`. */
  ghost function Waiting(st: Store, q: Id): set<Id> {
    set id | id in st.jobs && st.jobs[id].status == Queued && st.jobs[id].queueName == q
  }

  function PolicyOf(cfg: Config, jobType: Id): Policy {
    if cfg.policies == None then Policy(Ignore, "", None) else PolicyFor(cfg.policies.value, jobType)
  }

  /** Bound to queue `q`, every handler registered. */
  ghost predicate ServesQueue(cfg: Config, st: Store, q: Id) {
    cfg.queueName == Some(q) && AllHandled(cfg, st)
  }

  /** ... and no dead letters into `q` itself. */
  ghost predicate DrainsQueue(cfg: Config, st: Store, q: Id) {
    && ServesQueue(cfg, st, q)
    && (cfg.policies.Some? ==>
          forall t :: PolicyOf(cfg, t).action == DeadLetter ==> PolicyOf(cfg, t).deadLetterQueue != q)
  }

  predicate Undisturbed(turn: Turn) {
    turn.authorised && turn.rival == None
  }

  /** The handler failed and the policy of the job's type sends it to the dead letters. */
  predicate SendsLetter(cfg: Config, rec: JobRec, turn: Turn) {
    Ends(cfg, turn.outcome) != Completes && cfg.policies.Some? && PolicyOf(cfg, rec.jobType).action == DeadLetter
  }

  /** Exactly what one productive turn does to the store, seen from outside: one waiting job is
      settled, every other job is untouched, and a dead letter carrying its id is all that can
      be added. */
  ghost predicate SettlesOne(cfg: Config, a: Store, b: Store, id: Id, turn: Turn) {
    && id in a.jobs && id in b.jobs
    && b.jobs[id].status ==
       (if Ends(cfg, turn.outcome) == Completes then Succeeded
        else if cfg.policies.Some? && PolicyOf(cfg, a.jobs[id].jobType).action == Retry then RetryWait
        else Failed)
    && b.jobs[id].claimedBy == Some(cfg.owner)
    && b.jobs[id].jobType == a.jobs[id].jobType && b.jobs[id].queueName == a.jobs[id].queueName
    && b.jobs[id].source == a.jobs[id].source
    && (forall k :: k in a.jobs && k != id ==> k in b.jobs && b.jobs[k] == a.jobs[k])
    && (if SendsLetter(cfg, a.jobs[id], turn)
        then b.jobs.Keys == a.jobs.Keys + {turn.freshId}
             && b.jobs[turn.freshId] ==
                DeadLetterRec(a.jobs[id], PolicyOf(cfg, a.jobs[id].jobType).deadLetterQueue, id, turn.now)
        else b.jobs.Keys == a.jobs.Keys)
  }

  /** The failure write, after a timeout mark or not, is seen from outside as one settled job. */
  lemma FailSettles(cfg: Config, st: Store, id: Id, turn: Turn)
    requires CanClaim(st, id) && turn.freshId !in st.jobs && Ends(cfg, turn.outcome) != Completes
    ensures
      var z := Fail(cfg, Claim(st, id, cfg.owner), id, Ends(cfg, turn.outcome), turn).store;
      SettlesOne(cfg, st, z, id, turn)
  {
    if cfg.policies.Some? {
      assert PolicyOf(cfg, st.jobs[id].jobType) == PolicyFor(cfg.policies.value, st.jobs[id].jobType);
    }
  }

  lemma ExecuteSettles(cfg: Config, st: Store, id: Id, turn: Turn)
    requires CanClaim(st, id) && turn.freshId !in st.jobs
    ensures SettlesOne(cfg, st, Execute(cfg, Claim(st, id, cfg.owner), id, turn).store, id, turn)
  {
    if Ends(cfg, turn.outcome) != Completes {
      FailSettles(cfg, st, id, turn);
    }
  }

  /** The job a turn looks at. */
  ghost function Head(w: World, q: Id): seq<Id> {
    Dequeue(w.store, 1, None, Some(q))
  }

  lemma HeadWaits(w: World, q: Id)
    requires ValidStore(w.store)
    ensures Head(w, q) == [] <==> Waiting(w.store, q) == {}
    ensures Head(w, q) != [] ==> Head(w, q)[0] in Waiting(w.store, q)
  {
    RankingIsExact(w.store, None, Some(q));
    var r := Ranking(w.store, None, Some(q));
    if Head(w, q) != [] {
      assert Head(w, q)[0] in IdsOf(r);
      assert IsWanted(w.store, Head(w, q)[0], None, Some(q));
      assert Head(w, q)[0] in Waiting(w.store, q);
    }
    if Waiting(w.store, q) != {} {
      var id :| id in Waiting(w.store, q);
      assert IsWanted(w.store, id, None, Some(q));
      assert id in IdsOf(r);
      assert |r| > 0 && |Head(w, q)| == 1;
    }
  }

  /** A turn that does not return False settles exactly one job of the worker's queue. */
  lemma ProductiveTurn(cfg: Config, w: World, q: Id, turn: Turn)
    requires ValidStore(w.store) && DrainsQueue(cfg, w.store, q) && Undisturbed(turn) && turn.freshId !in w.store.jobs
    ensures
      var z := RunOnce(cfg, w, turn);
      if z.result == Processed(false) then z.world.store == w.store
      else Choose(cfg, w).ids != [] && Choose(cfg, w).ids[0] in Waiting(w.store, q)
           && SettlesOne(cfg, w.store, z.world.store, Choose(cfg, w).ids[0], turn)
    ensures cfg.gates == None ==> (RunOnce(cfg, w, turn).result == Processed(false) <==> Waiting(w.store, q) == {})
  {
    ChosenIsWanted(cfg, w);
    var c := Choose(cfg, w);
    if c.ids != [] {
      assert c.ids[0] in c.ids;
      ExecuteSettles(cfg, w.store, c.ids[0], turn);
    }
    HeadWaits(w, q);
  }

  /** The job could be selected now: its dependencies have succeeded and its slots are free. */
  ghost predicate Admissible(g: Gates, w: World, id: Id) {
    id in w.store.jobs && IsReady(g, w.store, w.edges, id) && Fits(g, w.slots, w.store.jobs[id])
  }

  /** With a dispatcher an undisturbed turn returns False exactly when nothing waits or the one
      job it looks at is not ready or does not fit. */
  lemma IdleTurnIff(cfg: Config, g: Gates, w: World, q: Id, turn: Turn)
    requires ValidStore(w.store) && ServesQueue(cfg, w.store, q) && Undisturbed(turn) && cfg.gates == Some(g)
    ensures RunOnce(cfg, w, turn).result == Processed(false) <==>
            Waiting(w.store, q) == {} || (Head(w, q) != [] && !Admissible(g, w, Head(w, q)[0]))
    ensures RunOnce(cfg, w, turn).result != Processed(false) ==> Choose(cfg, w).ids == Head(w, q)
  {
    var ids := Head(w, q);
    HeadWaits(w, q);
    ChosenIsWanted(cfg, w);
    if ids != [] {
      DequeuedAreStored(w.store, 1, Some(q));
      assert |ids| == 1 && ids[1..] == [];
      var a := Admit(g, w.slots, ids[0], w.store.jobs[ids[0]]);
      AdmitIsExact(g, w.slots, ids[0], w.store.jobs[ids[0]]);
      assert Greedy(g, w.store, w.edges, a.slots, ids[1..]) == Selection([], a.slots);
      assert Greedy(g, w.store, w.edges, w.slots, ids[1..]) == Selection([], w.slots);
      assert Choose(cfg, w) == Greedy(g, w.store, w.edges, w.slots, ids);
      assert Choose(cfg, w).ids == if Admissible(g, w, ids[0]) then ids else [];
    }
  }

  /** ... and so lowers the number waiting by exactly one. */
  lemma SettlingShrinksTheQueue(cfg: Config, a: Store, b: Store, q: Id, id: Id, turn: Turn)
    requires SettlesOne(cfg, a, b, id, turn) && DrainsQueue(cfg, a, q)
    requires id in Waiting(a, q) && turn.freshId !in a.jobs
    ensures Waiting(b, q) == Waiting(a, q) - {id} && |Waiting(b, q)| == |Waiting(a, q)| - 1
    ensures DrainsQueue(cfg, b, q)
  {
    assert Waiting(b, q) == Waiting(a, q) - {id};
  }

  /** Since store `a`, each job of queue `q` that left the queue ended succeeded, failed or in
      retry_wait, and no other old job changed. */
  ghost predicate JobsSettled(cfg: Config, a: Store, b: Store, q: Id) {
    && a.jobs.Keys <= b.jobs.Keys
    && Waiting(b, q) <= Waiting(a, q)
    && (forall id :: id in a.jobs && (id !in Waiting(a, q) || id in Waiting(b, q)) ==> b.jobs[id] == a.jobs[id])
    && (forall id :: id in Waiting(a, q) - Waiting(b, q) ==>
          b.jobs[id].status in {Succeeded, Failed, RetryWait} && b.jobs[id].jobType == a.jobs[id].jobType)
  }

  /** The new jobs are dead letters, each for a failed job of its own, and no dead-lettered
      failure lacks one. */
  ghost predicate LettersMatch(cfg: Config, a: Store, b: Store, q: Id)
    requires a.jobs.Keys <= b.jobs.Keys
  {
    && (forall x :: x in b.jobs.Keys - a.jobs.Keys ==> IsLetter(cfg, a, b, q, x))
    && (forall x, y :: x in b.jobs.Keys - a.jobs.Keys && y in b.jobs.Keys - a.jobs.Keys && x != y ==>
          b.jobs[x].source != b.jobs[y].source)
    && (forall id :: id in Waiting(a, q) - Waiting(b, q) && id in b.jobs && NeedsLetter(cfg, b.jobs[id]) ==>
          exists x :: x in b.jobs.Keys - a.jobs.Keys && b.jobs[x].source == Some(id))
  }

  /** What a stretch of undisturbed turns has done to the store. */
  ghost predicate Drained(cfg: Config, a: Store, b: Store, q: Id) {
    JobsSettled(cfg, a, b, q) && LettersMatch(cfg, a, b, q)
  }

  predicate NeedsLetter(cfg: Config, rec: JobRec) {
    rec.status == Failed && cfg.policies.Some? && PolicyOf(cfg, rec.jobType).action == DeadLetter
  }

  /** A queued job in the dead-letter queue of a failed job of `q`, carrying that job's id. */
  ghost predicate IsLetter(cfg: Config, a: Store, b: Store, q: Id, x: Id)
    requires x in b.jobs && a.jobs.Keys <= b.jobs.Keys
  {
    && b.jobs[x].status == Queued && b.jobs[x].source.Some?
    && b.jobs[x].source.value in Waiting(a, q) - Waiting(b, q) && b.jobs[x].source.value in b.jobs
    && NeedsLetter(cfg, b.jobs[b.jobs[x].source.value])
    && b.jobs[x].queueName == PolicyOf(cfg, b.jobs[b.jobs[x].source.value].jobType).deadLetterQueue
  }

  lemma NothingDrainedYet(cfg: Config, a: Store, q: Id)
    ensures Drained(cfg, a, a, q)
  {
  }

  /** The situation of one more productive turn. */
  ghost predicate OneMore(cfg: Config, a: Store, b: Store, c: Store, q: Id, id: Id, turn: Turn) {
    && Drained(cfg, a, b, q) && SettlesOne(cfg, b, c, id, turn) && id in Waiting(b, q)
    && turn.freshId !in b.jobs && Waiting(c, q) == Waiting(b, q) - {id}
  }

  lemma OneMoreSettles(cfg: Config, a: Store, b: Store, c: Store, q: Id, id: Id, turn: Turn)
    requires OneMore(cfg, a, b, c, q, id, turn)
    ensures JobsSettled(cfg, a, c, q)
  {
  }

  /** Letters written earlier are not disturbed by one more turn. */
  lemma LettersSurvive(cfg: Config, a: Store, b: Store, c: Store, q: Id, id: Id, turn: Turn, x: Id)
    requires OneMore(cfg, a, b, c, q, id, turn)
    requires x in b.jobs.Keys - a.jobs.Keys
    ensures x in c.jobs && c.jobs[x] == b.jobs[x] && IsLetter(cfg, a, c, q, x) && c.jobs[x].source != Some(id)
  {
    OneMoreSettles(cfg, a, b, c, q, id, turn);
    assert IsLetter(cfg, a, b, q, x);
  }

  lemma NewLetter(cfg: Config, a: Store, b: Store, c: Store, q: Id, id: Id, turn: Turn, x: Id)
    requires OneMore(cfg, a, b, c, q, id, turn)
    requires x in c.jobs && x !in b.jobs
    ensures x == turn.freshId && c.jobs[x].source == Some(id) && IsLetter(cfg, a, c, q, x)
  {
    OneMoreSettles(cfg, a, b, c, q, id, turn);
  }

  lemma EveryFailureHasItsLetter(cfg: Config, a: Store, b: Store, c: Store, q: Id, id: Id, turn: Turn, k: Id)
    requires OneMore(cfg, a, b, c, q, id, turn)
    requires k in Waiting(a, q) - Waiting(c, q) && k in c.jobs && NeedsLetter(cfg, c.jobs[k])
    ensures exists x :: x in c.jobs.Keys - a.jobs.Keys && c.jobs[x].source == Some(k)
  {
    OneMoreSettles(cfg, a, b, c, q, id, turn);
    if k == id {
      assert SendsLetter(cfg, b.jobs[id], turn);
      assert turn.freshId in c.jobs.Keys - a.jobs.Keys;
    } else {
      assert c.jobs[k] == b.jobs[k];
      var x :| x in b.jobs.Keys - a.jobs.Keys && b.jobs[x].source == Some(k);
      LettersSurvive(cfg, a, b, c, q, id, turn, x);
      assert x in c.jobs.Keys - a.jobs.Keys;
    }
  }

  lemma OneMoreLetter(cfg: Config, a: Store, b: Store, c: Store, q: Id, id: Id, turn: Turn)
    requires OneMore(cfg, a, b, c, q, id, turn)
    ensures LettersMatch(cfg, a, c, q)
  {
    OneMoreSettles(cfg, a, b, c, q, id, turn);
    var letters := c.jobs.Keys - a.jobs.Keys;
    forall x | x in letters ensures IsLetter(cfg, a, c, q, x) {
      LetterOfTurn(cfg, a, b, c, q, id, turn, x);
    }
    forall x, y | x in letters && y in letters && x != y ensures c.jobs[x].source != c.jobs[y].source {
      LetterOfTurn(cfg, a, b, c, q, id, turn, x);
      LetterOfTurn(cfg, a, b, c, q, id, turn, y);
    }
    forall k | k in Waiting(a, q) - Waiting(c, q) && k in c.jobs && NeedsLetter(cfg, c.jobs[k])
      ensures exists x :: x in letters && c.jobs[x].source == Some(k)
    {
      EveryFailureHasItsLetter(cfg, a, b, c, q, id, turn, k);
    }
  }

  /** A letter is an earlier one, undisturbed, or the one this turn wrote. */
  lemma LetterOfTurn(cfg: Config, a: Store, b: Store, c: Store, q: Id, id: Id, turn: Turn, x: Id)
    requires OneMore(cfg, a, b, c, q, id, turn)
    requires x in c.jobs.Keys - a.jobs.Keys
    ensures IsLetter(cfg, a, c, q, x)
    ensures if x in b.jobs then c.jobs[x] == b.jobs[x] && c.jobs[x].source != Some(id)
            else x == turn.freshId && c.jobs[x].source == Some(id)
  {
    OneMoreSettles(cfg, a, b, c, q, id, turn);
    if x in b.jobs {
      LettersSurvive(cfg, a, b, c, q, id, turn, x);
    } else {
      NewLetter(cfg, a, b, c, q, id, turn, x);
    }
  }

  /** One more productive turn. */
  lemma DrainedExtends(cfg: Config, a: Store, b: Store, c: Store, q: Id, id: Id, turn: Turn)
    requires Drained(cfg, a, b, q) && SettlesOne(cfg, b, c, id, turn) && DrainsQueue(cfg, b, q)
    requires id in Waiting(b, q) && turn.freshId !in b.jobs
    ensures Drained(cfg, a, c, q)
  {
    SettlingShrinksTheQueue(cfg, b, c, q, id, turn);
    OneMoreSettles(cfg, a, b, c, q, id, turn);
    OneMoreLetter(cfg, a, b, c, q, id, turn);
  }

  ghost function ProductiveTurns(cfg: Config, w: World, turns: seq<Turn>): nat
    requires ValidStore(w.store)
    decreases |turns|
  {
    if turns == [] then 0
    else
      TurnKeepsValid(cfg, w, turns[0]);
      (if RunOnce(cfg, w, turns[0]).result == Processed(false) then 0 else 1)
      + ProductiveTurns(cfg, RunOnce(cfg, w, turns[0]).world, turns[1..])
  }

  lemma {:induction false} DrainFrom(cfg: Config, a: Store, w: World, q: Id, turns: seq<Turn>)
    requires ValidStore(w.store) && DrainsQueue(cfg, w.store, q) && FreshIds(cfg, w, turns)
    requires forall t :: t in turns ==> Undisturbed(t)
    requires Drained(cfg, a, w.store, q)
    ensures
      var z := RunAll(cfg, w, turns);
      && Drained(cfg, a, z.store, q)
      && |Waiting(z.store, q)| + ProductiveTurns(cfg, w, turns) == |Waiting(w.store, q)|
      && (cfg.gates == None && |turns| >= |Waiting(w.store, q)| ==> Waiting(z.store, q) == {})
    decreases |turns|
  {
    if turns != [] {
      var turn, next := turns[0], RunOnce(cfg, w, turns[0]).world;
      TurnKeepsValid(cfg, w, turn);
      ProductiveTurn(cfg, w, q, turn);
      if RunOnce(cfg, w, turn).result != Processed(false) {
        var id := Choose(cfg, w).ids[0];
        SettlingShrinksTheQueue(cfg, w.store, next.store, q, id, turn);
        DrainedExtends(cfg, a, w.store, next.store, q, id, turn);
      }
      DrainFrom(cfg, a, next, q, turns[1..]);
    }
  }

  /** Draining: each turn that does not return False takes exactly one job off the queue. Without
      a dispatcher, as many turns as waiting jobs empty it; every job that left ended succeeded,
      failed or in retry_wait, and each dead-lettered failure added exactly one queued job
      carrying its id. */
  lemma QueueDrains(cfg: Config, w: World, q: Id, turns: seq<Turn>)
    requires ValidStore(w.store) && DrainsQueue(cfg, w.store, q) && FreshIds(cfg, w, turns)
    requires forall t :: t in turns ==> Undisturbed(t)
    ensures
      var z := RunAll(cfg, w, turns);
      && Drained(cfg, w.store, z.store, q)
      && |Waiting(z.store, q)| + ProductiveTurns(cfg, w, turns) == |Waiting(w.store, q)|
      && (cfg.gates == None && |turns| >= |Waiting(w.store, q)| ==> Waiting(z.store, q) == {})
  {
    NothingDrainedYet(cfg, w.store, q);
    DrainFrom(cfg, w.store, w, q, turns);
  }

  // ---- Draining through a dispatcher ----

  ghost predicate AllAdmissible(g: Gates, w: World, q: Id) {
    forall id :: id in Waiting(w.store, q) ==> Admissible(g, w, id)
  }

  lemma SameSlotsFit(g: Gates, a: SlotState, b: SlotState, rec: JobRec)
    requires SameSlots(a, b) && Fits(g, b, rec)
    ensures Fits(g, a, rec)
  {
    assert NoMoreThan(a, b);
    FitsAntitone(g, a, b, rec);
  }

  /** A job that waits on stays admissible when another is settled and the slots come back. */
  lemma StaysAdmissible(cfg: Config, g: Gates, w: World, z: World, id: Id, turn: Turn, k: Id)
    requires SettlesOne(cfg, w.store, z.store, id, turn) && SameSlots(z.slots, w.slots) && z.edges == w.edges
    requires w.store.jobs[id].status == Queued && k != id && Admissible(g, w, k)
    ensures Admissible(g, z, k)
  {
    SameSlotsFit(g, z.slots, w.slots, w.store.jobs[k]);
    if g.tracker && w.store.jobs[k].dependsOn != [] {
      forall d | d in Deps(z.edges, k) ensures d in z.store.jobs && z.store.jobs[d].status == Succeeded {
        assert d in StatusesOf(w.store) && StatusesOf(w.store)[d] == Succeeded;
      }
    }
  }

  lemma AdmissibleTurn(cfg: Config, g: Gates, w: World, q: Id, turn: Turn)
    requires ValidStore(w.store) && DrainsQueue(cfg, w.store, q) && cfg.gates == Some(g) && Undisturbed(turn)
    requires turn.freshId !in w.store.jobs && turn.freshId !in w.slots.pool.holders
    requires NoQueuedHolder(w) && AllAdmissible(g, w, q) && Waiting(w.store, q) != {}
    ensures
      var z := RunOnce(cfg, w, turn).world;
      && RunOnce(cfg, w, turn).result != Processed(false)
      && DrainsQueue(cfg, z.store, q) && NoQueuedHolder(z) && AllAdmissible(g, z, q)
      && SameSlots(z.slots, w.slots) && |Waiting(z.store, q)| == |Waiting(w.store, q)| - 1
  {
    var z := RunOnce(cfg, w, turn).world;
    HeadWaits(w, q);
    IdleTurnIff(cfg, g, w, q, turn);
    ProductiveTurn(cfg, w, q, turn);
    var id := Choose(cfg, w).ids[0];
    SettlingShrinksTheQueue(cfg, w.store, z.store, q, id, turn);
    TurnRestoresSlots(cfg, w, turn);
    forall k | k in Waiting(z.store, q) ensures Admissible(g, z, k) {
      StaysAdmissible(cfg, g, w, z, id, turn, k);
    }
  }

  /** Through a dispatcher too: when every waiting job is ready and fits the free slots on its own,
      as many undisturbed turns as waiting jobs empty the queue, because each turn gives back what
      it took. */
  lemma {:induction false} AdmissibleQueueDrains(cfg: Config, g: Gates, w: World, q: Id, turns: seq<Turn>)
    requires ValidStore(w.store) && DrainsQueue(cfg, w.store, q) && cfg.gates == Some(g) && FreshIds(cfg, w, turns)
    requires forall t :: t in turns ==> Undisturbed(t) && t.freshId !in w.slots.pool.holders
    requires NoQueuedHolder(w) && AllAdmissible(g, w, q) && |turns| >= |Waiting(w.store, q)|
    ensures Waiting(RunAll(cfg, w, turns).store, q) == {} && SameSlots(RunAll(cfg, w, turns).slots, w.slots)
    decreases |turns|
  {
    if turns != [] {
      var turn, next := turns[0], RunOnce(cfg, w, turns[0]).world;
      assert turn in turns;
      TurnKeepsValid(cfg, w, turn);
      if Waiting(w.store, q) == {} {
        IdleTurnIff(cfg, g, w, q, turn);
        ProductiveTurn(cfg, w, q, turn);
        TurnRestoresSlots(cfg, w, turn);
        assert next.store == w.store;
      } else {
        AdmissibleTurn(cfg, g, w, q, turn);
      }
      AdmissibleQueueDrains(cfg, g, next, q, turns[1..]);
    }
  }
}
