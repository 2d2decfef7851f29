/** Named resource pools with slot limits, and who holds how many slots of each. */
module ResourcePools {
  import opened Basics

  /** Pool name to slot count: a request, a holding, a usage table or the limits. */
  type Slots = map<Id, nat>
  type Holders = map<Id, Slots>

  datatype PoolState = PoolState(used: Slots, holders: Holders)

  const EMPTY_POOL := PoolState(map[], map[])

  predicate CanAcquire(limits: Slots, used: Slots, req: Slots) {
    forall p :: p in req && p in limits ==> Get(used, p) + req[p] <= limits[p]
  }

  function Raise(used: Slots, req: Slots): (r: Slots)
    ensures forall p :: Get(r, p) == Get(used, p) + Get(req, p)
  {
    map p | p in used.Keys + req.Keys :: Get(used, p) + Get(req, p)
  }

  function Lower(used: Slots, held: Slots): (r: Slots)
    ensures forall p :: Get(r, p) == Monus(Get(used, p), Get(held, p))
  {
    map p | p in used.Keys + held.Keys :: Monus(Get(used, p), Get(held, p))
  }

  function HeldBy(h: Holders, id: Id): Slots {
    if id in h then h[id] else map[]
  }

  function Grant(s: PoolState, id: Id, req: Slots): PoolState {
    if req == map[] then s else PoolState(Raise(s.used, req), s.holders[id := req])
  }

  function Free(s: PoolState, id: Id): PoolState {
    PoolState(Lower(s.used, HeldBy(s.holders, id)), s.holders - {id})
  }

  class ResourcePool {
    const limits: Slots
    var used: Slots
    var holders: Holders

    constructor (limits: Slots)
      ensures this.limits == limits && State() == EMPTY_POOL
    {
      this.limits := limits;
      used, holders := map[], map[];
    }

    ghost function State(): PoolState
      reads this
    {
      PoolState(used, holders)
    }

    method CanAcquireNow(req: Slots) returns (ok: bool)
      ensures ok <==> CanAcquire(limits, used, req)
      ensures !ok <==> exists p :: p in req && p in limits && Get(used, p) + req[p] > limits[p]
    {
      var rest := req.Keys;
      while rest != {}
        invariant rest <= req.Keys
        invariant forall p :: p in req && p !in rest && p in limits ==> Get(used, p) + req[p] <= limits[p]
        decreases rest
      {
        var p :| p in rest;
        rest := rest - {p};
        if p in limits && Get(used, p) + req[p] > limits[p] {
          return false;
        }
      }
      return true;
    }

    method Acquire(id: Id, req: Slots) returns (ok: bool)
      modifies this
      ensures ok <==> req == map[] || CanAcquire(limits, old(used), req)
      ensures State() == if ok then Grant(old(State()), id, req) else old(State())
      ensures !ok <==> exists p :: p in req && p in limits && Get(old(used), p) + req[p] > limits[p]
      ensures ok && req != map[] ==> holders == old(holders)[id := req]
      ensures ok ==> forall p :: Get(used, p) == Get(old(used), p) + Get(req, p)
    {
      if req == map[] {
        return true;
      }
      ok := CanAcquireNow(req);
      if !ok {
        return false;
      }
      var rest := req.Keys;
      while rest != {}
        invariant rest <= req.Keys && holders == old(holders)
        invariant used.Keys == old(used).Keys + (req.Keys - rest)
        invariant forall p :: p in used ==>
                    used[p] == Get(old(used), p) + if p in rest then 0 else Get(req, p)
        decreases rest
      {
        var p :| p in rest;
        used := used[p := Get(used, p) + req[p]];
        rest := rest - {p};
      }
      assert used == Raise(old(used), req);
      holders := holders[id := req];
    }

    method Release(id: Id)
      modifies this
      ensures State() == Free(old(State()), id)
      ensures holders == old(holders) - {id}
      ensures forall p :: Get(used, p) ==
                Monus(Get(old(used), p), if id in old(holders) then Get(old(holders)[id], p) else 0)
    {
      var held := HeldBy(holders, id);
      holders := holders - {id};
      var rest := held.Keys;
      while rest != {}
        invariant rest <= held.Keys && holders == old(holders) - {id}
        invariant used.Keys == old(used).Keys + (held.Keys - rest)
        invariant forall p :: p in used ==>
                    used[p] == Monus(Get(old(used), p), if p in rest then 0 else Get(held, p))
        decreases rest
      {
        var p :| p in rest;
        used := used[p := Monus(Get(used, p), held[p])];
        rest := rest - {p};
      }
      assert used == Lower(old(used), held);
    }

    /** Number of configured pools with no slot left. */
    method BlockedCount() returns (n: nat)
      ensures n == |set p | p in limits && Get(used, p) >= limits[p]|
    {
      n := 0;
      var rest := limits.Keys;
      ghost var full := {};
      while rest != {}
        invariant rest <= limits.Keys && n == |full|
        invariant full == set p | p in limits && p !in rest && Get(used, p) >= limits[p]
        decreases rest
      {
        var p :| p in rest;
        rest := rest - {p};
        if Get(used, p) >= limits[p] {
          full := full + {p};
          n := n + 1;
        }
      }
      assert full == set p | p in limits && Get(used, p) >= limits[p];
    }
  }

  // ---- Conservation ----

  /** Slots of pool `p` over all holders. */
  ghost function HeldIn(h: Holders, p: Id): nat
    decreases |h|
  {
    if h == map[] then 0
    else var id :| id in h; Get(h[id], p) + HeldIn(h - {id}, p)
  }

  /** The sum does not depend on the order in which holders are counted. */
  lemma {:induction false} HeldInSplit(h: Holders, id: Id, p: Id)
    requires id in h
    ensures HeldIn(h, p) == Get(h[id], p) + HeldIn(h - {id}, p)
    decreases |h|
  {
    var k :| k in h && HeldIn(h, p) == Get(h[k], p) + HeldIn(h - {k}, p);
    if k != id {
      HeldInSplit(h - {k}, id, p);
      HeldInSplit(h - {id}, k, p);
      assert h - {k} - {id} == h - {id} - {k};
    }
  }

  lemma HeldInUpdate(h: Holders, id: Id, req: Slots, p: Id)
    ensures HeldIn(h[id := req], p) + Get(HeldBy(h, id), p) == HeldIn(h, p) + Get(req, p)
  {
    HeldInSplit(h[id := req], id, p);
    assert h[id := req] - {id} == h - {id};
    if id in h {
      HeldInSplit(h, id, p);
    } else {
      assert h - {id} == h;
    }
  }

  /** Every pool's used count is what its holders hold. */
  ghost predicate Conserved(s: PoolState) {
    forall p :: Get(s.used, p) == HeldIn(s.holders, p)
  }

  ghost predicate WithinLimits(limits: Slots, s: PoolState) {
    forall p :: p in limits ==> Get(s.used, p) <= limits[p]
  }

  /** A holder can never be charged more than the pool counts, so the clamp at zero is idle. */
  lemma ClampIdle(s: PoolState, id: Id, p: Id)
    requires Conserved(s)
    ensures Get(HeldBy(s.holders, id), p) <= Get(s.used, p)
  {
    if id in s.holders {
      HeldInSplit(s.holders, id, p);
    }
  }

  lemma FreeConserves(s: PoolState, id: Id)
    requires Conserved(s)
    ensures Conserved(Free(s, id))
    ensures forall p :: Get(Free(s, id).used, p) + Get(HeldBy(s.holders, id), p) == Get(s.used, p)
  {
    forall p
      ensures Get(Free(s, id).used, p) == HeldIn(s.holders - {id}, p)
      ensures Get(Free(s, id).used, p) + Get(HeldBy(s.holders, id), p) == Get(s.used, p)
    {
      ClampIdle(s, id, p);
      if id in s.holders {
        HeldInSplit(s.holders, id, p);
      } else {
        assert s.holders - {id} == s.holders;
      }
    }
  }

  /** A granted request keeps the books exactly when the job was not already holding slots:
      the new holding replaces the old one while both stay counted as used. */
  lemma GrantConservesIff(s: PoolState, id: Id, req: Slots)
    requires Conserved(s) && req != map[]
    ensures Conserved(Grant(s, id, req)) <==> forall p :: Get(HeldBy(s.holders, id), p) == 0
  {
    forall p ensures
      Get(Grant(s, id, req).used, p) == HeldIn(Grant(s, id, req).holders, p) + Get(HeldBy(s.holders, id), p)
    {
      HeldInUpdate(s.holders, id, req, p);
    }
  }

  datatype PoolOp = AcquireOp(id: Id, req: Slots) | ReleaseOp(id: Id)

  /** The effect of one call, as the methods state it. */
  function Apply(limits: Slots, s: PoolState, op: PoolOp): PoolState {
    match op
    case AcquireOp(id, req) => if CanAcquire(limits, s.used, req) then Grant(s, id, req) else s
    case ReleaseOp(id) => Free(s, id)
  }

  /** No id acquires while it already holds. */
  ghost predicate NoDoubleAcquire(limits: Slots, s: PoolState, ops: seq<PoolOp>)
    decreases |ops|
  {
    ops == [] ||
    ((ops[0].AcquireOp? ==> ops[0].id !in s.holders) && NoDoubleAcquire(limits, Apply(limits, s, ops[0]), ops[1..]))
  }

  function ApplyAll(limits: Slots, s: PoolState, ops: seq<PoolOp>): PoolState
    decreases |ops|
  {
    if ops == [] then s else ApplyAll(limits, Apply(limits, s, ops[0]), ops[1..])
  }

  /** Over every run without double acquisition the used counts are exactly what is held
      and never exceed a configured limit. */
  lemma {:induction false} RunsConserve(limits: Slots, s: PoolState, ops: seq<PoolOp>)
    requires Conserved(s) && WithinLimits(limits, s) && NoDoubleAcquire(limits, s, ops)
    ensures Conserved(ApplyAll(limits, s, ops)) && WithinLimits(limits, ApplyAll(limits, s, ops))
    decreases |ops|
  {
    if ops != [] {
      match ops[0] {
        case AcquireOp(id, req) => if req != map[] { GrantConservesIff(s, id, req); }
        case ReleaseOp(id) => FreeConserves(s, id);
      }
      RunsConserve(limits, Apply(limits, s, ops[0]), ops[1..]);
    }
  }

  /** A request is refused exactly when some requested pool has a limit and the slots in use plus
      the request pass it; otherwise all its slots are taken in the job's name. */
  lemma AcquireIsExact(limits: Slots, s: PoolState, id: Id, req: Slots)
    requires req != map[]
    ensures
      var z := Apply(limits, s, AcquireOp(id, req));
      if exists p :: p in req && p in limits && Get(s.used, p) + req[p] > limits[p] then z == s
      else z.holders == s.holders[id := req] && forall p :: Get(z.used, p) == Get(s.used, p) + Get(req, p)
  {
    if p :| p in req && p in limits && Get(s.used, p) + req[p] > limits[p] {
      assert !CanAcquire(limits, s.used, req);
    }
  }

  /** Told by the holders alone, in every run without double acquisition: a request is refused
      exactly when what everybody holds of some limited pool leaves no room for it. */
  lemma RefusedIffHeldOut(limits: Slots, s: PoolState, ops: seq<PoolOp>, id: Id, req: Slots)
    requires Conserved(s) && WithinLimits(limits, s) && NoDoubleAcquire(limits, s, ops) && req != map[]
    ensures
      var z := ApplyAll(limits, s, ops);
      var after := Apply(limits, z, AcquireOp(id, req));
      if exists p :: p in req && p in limits && HeldIn(z.holders, p) + req[p] > limits[p] then after == z
      else after.holders == z.holders[id := req]
  {
    RunsConserve(limits, s, ops);
    var z := ApplyAll(limits, s, ops);
    AcquireIsExact(limits, z, id, req);
    assert forall p :: Get(z.used, p) == HeldIn(z.holders, p);
  }

  /** Pools without a configured limit refuse nobody. */
  lemma UnlimitedIsGranted(limits: Slots, s: PoolState, id: Id, req: Slots)
    requires req != map[] && req.Keys !! limits.Keys
    ensures Apply(limits, s, AcquireOp(id, req)).holders == s.holders[id := req]
  {
    AcquireIsExact(limits, s, id, req);
  }

  /** A grant and the release that follows it leave every count and the holders as they were. */
  lemma GrantThenFree(s: PoolState, id: Id, req: Slots)
    requires id !in s.holders
    ensures Free(Grant(s, id, req), id).holders == s.holders
    ensures SameCounts(Free(Grant(s, id, req), id).used, s.used)
  {
    assert s.holders[id := req] - {id} == s.holders;
    assert s.holders - {id} == s.holders;
  }

  /** The leak, concretely: acquiring twice and releasing once strands a slot for good. */
  lemma DoubleAcquireLeaks()
    ensures
      var limits, one: Slots := map["llm-pool" := 2], map["llm-pool" := 1];
      var s := ApplyAll(limits, EMPTY_POOL, [AcquireOp("j1", one), AcquireOp("j1", one), ReleaseOp("j1")]);
      s.holders == map[] && Get(s.used, "llm-pool") == 1
  {
    var limits, one: Slots := map["llm-pool" := 2], map["llm-pool" := 1];
    var s1 := Apply(limits, EMPTY_POOL, AcquireOp("j1", one));
    var s2 := Apply(limits, s1, AcquireOp("j1", one));
    var s3 := Apply(limits, s2, ReleaseOp("j1"));
    var ops := [AcquireOp("j1", one), AcquireOp("j1", one), ReleaseOp("j1")];
    assert ops[1..] == [AcquireOp("j1", one), ReleaseOp("j1")];
    assert ops[1..][1..] == [ReleaseOp("j1")];
    assert ops[1..][1..][1..] == [];
    assert Get(s1.used, "llm-pool") == 1;
    assert Get(s2.used, "llm-pool") == 2;
    assert s3.holders == map[];
    calc {
      ApplyAll(limits, EMPTY_POOL, ops);
      ApplyAll(limits, s1, ops[1..]);
      ApplyAll(limits, s2, ops[1..][1..]);
      ApplyAll(limits, s3, ops[1..][1..][1..]);
      s3;
    }
  }
}
