/** Running-slot counters: one global, and one per job type, tenant and user. */
module Concurrency {
  import opened Basics

  datatype Limits = Limits(globalMax: int, perTypeMax: int, perTenantMax: int, perUserMax: int)

  datatype Counters = Counters(global: nat, byType: map<Id, nat>, byTenant: map<Id, nat>, byUser: map<Id, nat>)

  /** The three keys one slot is charged to. */
  datatype Ticket = Ticket(jobType: Id, tenant: Id, user: Id)

  const NO_SLOTS := Counters(0, map[], map[], map[])

  predicate CanTake(l: Limits, c: Counters, t: Ticket) {
    && c.global < l.globalMax
    && Get(c.byType, t.jobType) < l.perTypeMax
    && Get(c.byTenant, t.tenant) < l.perTenantMax
    && Get(c.byUser, t.user) < l.perUserMax
  }

  function Bump(m: map<Id, nat>, k: Id): (r: map<Id, nat>)
    ensures forall j :: Get(r, j) == Get(m, j) + if j == k then 1 else 0
  {
    m[k := Get(m, k) + 1]
  }

  function Drop(m: map<Id, nat>, k: Id): (r: map<Id, nat>)
    ensures forall j :: Get(r, j) == Monus(Get(m, j), if j == k then 1 else 0)
  {
    m[k := Monus(Get(m, k), 1)]
  }

  function Take(c: Counters, t: Ticket): Counters {
    Counters(c.global + 1, Bump(c.byType, t.jobType), Bump(c.byTenant, t.tenant), Bump(c.byUser, t.user))
  }

  function Give(c: Counters, t: Ticket): Counters {
    Counters(Monus(c.global, 1), Drop(c.byType, t.jobType), Drop(c.byTenant, t.tenant), Drop(c.byUser, t.user))
  }

  class ConcurrencyManager {
    const limits: Limits
    var global: nat
    var byType: map<Id, nat>
    var byTenant: map<Id, nat>
    var byUser: map<Id, nat>

    constructor (limits: Limits)
      ensures this.limits == limits && State() == NO_SLOTS
    {
      this.limits := limits;
      global, byType, byTenant, byUser := 0, map[], map[], map[];
    }

    ghost function State(): Counters
      reads this
    {
      Counters(global, byType, byTenant, byUser)
    }

    predicate CanAcquire(t: Ticket)
      reads this
    {
      && global < limits.globalMax
      && Get(byType, t.jobType) < limits.perTypeMax
      && Get(byTenant, t.tenant) < limits.perTenantMax
      && Get(byUser, t.user) < limits.perUserMax
    }

    method Acquire(t: Ticket) returns (ok: bool)
      modifies this
      ensures ok <==> CanTake(limits, old(State()), t)
      ensures State() == if ok then Take(old(State()), t) else old(State())
      ensures ok <==>
              && old(global) < limits.globalMax && Get(old(byType), t.jobType) < limits.perTypeMax
              && Get(old(byTenant), t.tenant) < limits.perTenantMax && Get(old(byUser), t.user) < limits.perUserMax
    {
      if !CanAcquire(t) {
        return false;
      }
      global := global + 1;
      byType := byType[t.jobType := Get(byType, t.jobType) + 1];
      byTenant := byTenant[t.tenant := Get(byTenant, t.tenant) + 1];
      byUser := byUser[t.user := Get(byUser, t.user) + 1];
      return true;
    }

    method Release(t: Ticket)
      modifies this
      ensures State() == Give(old(State()), t)
    {
      global := Monus(global, 1);
      byType := byType[t.jobType := Monus(Get(byType, t.jobType), 1)];
      byTenant := byTenant[t.tenant := Monus(Get(byTenant, t.tenant), 1)];
      byUser := byUser[t.user := Monus(Get(byUser, t.user), 1)];
    }
  }

  /** Two states that every limit check and every later count sees alike. */
  ghost predicate SameState(a: Counters, b: Counters) {
    && a.global == b.global
    && SameCounts(a.byType, b.byType)
    && SameCounts(a.byTenant, b.byTenant)
    && SameCounts(a.byUser, b.byUser)
  }

  lemma TakeThenGive(c: Counters, t: Ticket)
    ensures SameState(Give(Take(c, t), t), c)
  {
  }

  // ---- Conservation over runs ----

  /** What a counter is kept by. */
  datatype Dimension = ByType | ByTenant | ByUser

  function KeyOf(t: Ticket, dim: Dimension): Id {
    match dim
    case ByType => t.jobType
    case ByTenant => t.tenant
    case ByUser => t.user
  }

  ghost function CountBy(ts: seq<Ticket>, dim: Dimension, k: Id): nat {
    if ts == [] then 0 else (if KeyOf(ts[0], dim) == k then 1 else 0) + CountBy(ts[1..], dim, k)
  }

  lemma {:induction false} CountByAppend(a: seq<Ticket>, b: seq<Ticket>, dim: Dimension, k: Id)
    ensures CountBy(a + b, dim, k) == CountBy(a, dim, k) + CountBy(b, dim, k)
  {
    if a == [] {
      assert a + b == b;
    } else {
      assert (a + b)[1..] == a[1..] + b;
      CountByAppend(a[1..], b, dim, k);
    }
  }

  lemma CountByRemove(ts: seq<Ticket>, i: nat, dim: Dimension, k: Id)
    requires i < |ts|
    ensures CountBy(ts, dim, k) == CountBy(RemoveAt(ts, i), dim, k) + if KeyOf(ts[i], dim) == k then 1 else 0
  {
    assert ts == ts[..i] + ([ts[i]] + ts[i + 1..]);
    CountByAppend(ts[..i], [ts[i]] + ts[i + 1..], dim, k);
    CountByAppend(ts[..i], ts[i + 1..], dim, k);
    assert ([ts[i]] + ts[i + 1..])[1..] == ts[i + 1..];
  }

  /** Every counter is the number of outstanding tickets charged to its key. */
  ghost predicate Accounts(c: Counters, out: seq<Ticket>) {
    && c.global == |out|
    && (forall k :: Get(c.byType, k) == CountBy(out, ByType, k))
    && (forall k :: Get(c.byTenant, k) == CountBy(out, ByTenant, k))
    && (forall k :: Get(c.byUser, k) == CountBy(out, ByUser, k))
  }

  ghost predicate WithinLimits(l: Limits, c: Counters) {
    && c.global <= l.globalMax
    && (forall k :: Get(c.byType, k) <= l.perTypeMax)
    && (forall k :: Get(c.byTenant, k) <= l.perTenantMax)
    && (forall k :: Get(c.byUser, k) <= l.perUserMax)
  }

  /** `TakeOp` asks for a slot; `GiveOp(i)` gives back the i-th outstanding ticket. */
  datatype SlotOp = TakeOp(t: Ticket) | GiveOp(i: nat)

  datatype Run = Run(c: Counters, out: seq<Ticket>)

  ghost function Apply(l: Limits, r: Run, op: SlotOp): Run {
    match op
    case TakeOp(t) => if CanTake(l, r.c, t) then Run(Take(r.c, t), r.out + [t]) else r
    case GiveOp(i) => if i < |r.out| then Run(Give(r.c, r.out[i]), RemoveAt(r.out, i)) else r
  }

  ghost function ApplyAll(l: Limits, r: Run, ops: seq<SlotOp>): Run
    decreases |ops|
  {
    if ops == [] then r else ApplyAll(l, Apply(l, r, ops[0]), ops[1..])
  }

  lemma TakeAccounts(c: Counters, out: seq<Ticket>, t: Ticket)
    requires Accounts(c, out)
    ensures Accounts(Take(c, t), out + [t])
  {
    forall k, dim: Dimension
      ensures CountBy(out + [t], dim, k) == CountBy(out, dim, k) + if KeyOf(t, dim) == k then 1 else 0
    {
      CountByAppend(out, [t], dim, k);
    }
  }

  lemma GiveAccounts(c: Counters, out: seq<Ticket>, i: nat)
    requires Accounts(c, out) && i < |out|
    ensures Accounts(Give(c, out[i]), RemoveAt(out, i))
  {
    forall k, dim: Dimension
      ensures CountBy(out, dim, k) == CountBy(RemoveAt(out, i), dim, k) + if KeyOf(out[i], dim) == k then 1 else 0
    {
      CountByRemove(out, i, dim, k);
    }
  }

  /** In every run of takes and matched gives each counter is exactly the outstanding tickets
      of its key and no counter passes its limit. */
  lemma {:induction false} RunsAccount(l: Limits, r: Run, ops: seq<SlotOp>)
    requires Accounts(r.c, r.out) && WithinLimits(l, r.c)
    ensures
      var z := ApplyAll(l, r, ops);
      Accounts(z.c, z.out) && WithinLimits(l, z.c)
    decreases |ops|
  {
    if ops != [] {
      match ops[0] {
        case TakeOp(t) => TakeAccounts(r.c, r.out, t);
        case GiveOp(i) => if i < |r.out| { GiveAccounts(r.c, r.out, i); }
      }
      RunsAccount(l, Apply(l, r, ops[0]), ops[1..]);
    }
  }

  /** In every such run a take is granted exactly when the outstanding tickets, all of them and
      those of its type, tenant and user, are fewer than the four limits. */
  lemma GrantedIffBelowLimits(l: Limits, r: Run, ops: seq<SlotOp>, t: Ticket)
    requires Accounts(r.c, r.out) && WithinLimits(l, r.c)
    ensures
      var z := ApplyAll(l, r, ops);
      Apply(l, z, TakeOp(t)).out ==
      if && |z.out| < l.globalMax
         && CountBy(z.out, ByType, t.jobType) < l.perTypeMax
         && CountBy(z.out, ByTenant, t.tenant) < l.perTenantMax
         && CountBy(z.out, ByUser, t.user) < l.perUserMax
      then z.out + [t] else z.out
  {
    RunsAccount(l, r, ops);
  }

  // ---- The dimensions sum to the global counter ----

  ghost function Total(m: map<Id, nat>): nat
    decreases |m|
  {
    if m == map[] then 0 else var k :| k in m; m[k] + Total(m - {k})
  }

  lemma {:induction false} TotalSplit(m: map<Id, nat>, k: Id)
    requires k in m
    ensures Total(m) == m[k] + Total(m - {k})
    decreases |m|
  {
    var j :| j in m && Total(m) == m[j] + Total(m - {j});
    if j != k {
      TotalSplit(m - {j}, k);
      TotalSplit(m - {k}, j);
      assert m - {j} - {k} == m - {k} - {j};
    }
  }

  lemma TotalUpdate(m: map<Id, nat>, k: Id, v: nat)
    ensures Total(m[k := v]) + Get(m, k) == Total(m) + v
  {
    TotalSplit(m[k := v], k);
    assert m[k := v] - {k} == m - {k};
    if k in m {
      TotalSplit(m, k);
    } else {
      assert m - {k} == m;
    }
  }

  ghost predicate Balanced(c: Counters) {
    Total(c.byType) == Total(c.byTenant) == Total(c.byUser) == c.global
  }

  lemma TakeBalances(c: Counters, t: Ticket)
    requires Balanced(c)
    ensures Balanced(Take(c, t))
  {
    TotalUpdate(c.byType, t.jobType, Get(c.byType, t.jobType) + 1);
    TotalUpdate(c.byTenant, t.tenant, Get(c.byTenant, t.tenant) + 1);
    TotalUpdate(c.byUser, t.user, Get(c.byUser, t.user) + 1);
  }

  /** `release` clamps each counter at zero on its own, so a release nobody is owed keeps the
      three dimensions in balance exactly when nothing is running or every one of the
      release's own counters is positive. */
  lemma GiveBalancesIff(c: Counters, t: Ticket)
    requires Balanced(c)
    ensures Balanced(Give(c, t)) <==>
            c.global == 0 ||
            (Get(c.byType, t.jobType) > 0 && Get(c.byTenant, t.tenant) > 0 && Get(c.byUser, t.user) > 0)
  {
    TotalUpdate(c.byType, t.jobType, Monus(Get(c.byType, t.jobType), 1));
    TotalUpdate(c.byTenant, t.tenant, Monus(Get(c.byTenant, t.tenant), 1));
    TotalUpdate(c.byUser, t.user, Monus(Get(c.byUser, t.user), 1));
    if c.global == 0 {
      EntryWithinTotal(c.byType, t.jobType);
      EntryWithinTotal(c.byTenant, t.tenant);
      EntryWithinTotal(c.byUser, t.user);
    }
  }

  /** One slot taken for one tenant and released for another: no slot is in use, but the first
      tenant's counter still says one. */
  lemma UnmatchedReleaseUnbalances()
    ensures
      var taken := Take(NO_SLOTS, Ticket("job", "first", "user"));
      var z := Give(taken, Ticket("job", "second", "user"));
      Balanced(taken) && !Balanced(z) && z.global == 0 && Get(z.byTenant, "first") == 1
  {
    assert Balanced(NO_SLOTS);
    TakeBalances(NO_SLOTS, Ticket("job", "first", "user"));
    GiveBalancesIff(Take(NO_SLOTS, Ticket("job", "first", "user")), Ticket("job", "second", "user"));
  }

  lemma EntryWithinTotal(m: map<Id, nat>, k: Id)
    ensures Get(m, k) <= Total(m)
  {
    if k in m {
      TotalSplit(m, k);
    }
  }

  /** Counters that account for the outstanding tickets are balanced, and so stay balanced
      through every run of matched takes and gives. */
  lemma {:induction false} RunsBalance(l: Limits, r: Run, ops: seq<SlotOp>)
    requires Accounts(r.c, r.out) && WithinLimits(l, r.c) && Balanced(r.c)
    ensures Balanced(ApplyAll(l, r, ops).c)
    decreases |ops|
  {
    if ops != [] {
      RunsAccount(l, r, ops[..1]);
      assert ApplyAll(l, r, ops[..1]) == Apply(l, r, ops[0]) by {
        assert ops[..1][1..] == [];
      }
      match ops[0] {
        case TakeOp(t) => TakeBalances(r.c, t);
        case GiveOp(i) =>
          if i < |r.out| {
            var t := r.out[i];
            CountByRemove(r.out, i, ByType, t.jobType);
            CountByRemove(r.out, i, ByTenant, t.tenant);
            CountByRemove(r.out, i, ByUser, t.user);
            GiveBalancesIff(r.c, t);
          }
      }
      RunsBalance(l, Apply(l, r, ops[0]), ops[1..]);
    }
  }
}
