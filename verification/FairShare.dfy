/** Tenant quotas with a fixed one-minute window, and the weighted pick of the next tenant. */
module FairShare {
  import opened Basics

  datatype Quota = Quota(maxConcurrent: nat, maxPerMinute: nat, weight: real,
                         active: nat, windowStart: real, minuteCount: nat)

  const MINUTE: real := 60.0

  /** What `can_submit` does to the window: nothing for a tenant at its concurrency limit. */
  function Refreshed(q: Quota, now: real): Quota {
    if q.active < q.maxConcurrent && now - q.windowStart >= MINUTE
    then q.(windowStart := now, minuteCount := 0) else q
  }

  predicate Allowed(q: Quota, now: real) {
    q.active < q.maxConcurrent && Refreshed(q, now).minuteCount < q.maxPerMinute
  }

  function Submitted(q: Quota): Quota {
    q.(active := q.active + 1, minuteCount := q.minuteCount + 1)
  }

  function Completed(q: Quota): Quota {
    q.(active := Monus(q.active, 1))
  }

  function Share(q: Quota): (w: real)
    ensures w > 0.0
  {
    if q.weight < 0.01 then 0.01 else q.weight
  }

  function Ratio(q: Quota): real {
    q.active as real / Share(q)
  }

  type Tenants = map<Id, Quota>

  predicate IsEligible(ts: Tenants, t: Id, now: real) {
    t in ts && Allowed(ts[t], now)
  }

  /** The running best of the loop: a later candidate wins only with a strictly lower ratio. */
  function Best(ts: Tenants, cands: seq<Id>, now: real): (b: Option<Id>)
    ensures b.Some? ==> b.value in cands && IsEligible(ts, b.value, now)
  {
    if cands == [] then None
    else
      var before, c := Best(ts, cands[..|cands| - 1], now), cands[|cands| - 1];
      if IsEligible(ts, c, now) && (before == None || Ratio(ts[c]) < Ratio(ts[before.value])) then Some(c)
      else before
  }

  /** The pick is an eligible candidate of least ratio, and the first of those; there is none
      only when no candidate is eligible. */
  lemma {:induction false} BestIsLeast(ts: Tenants, cands: seq<Id>, now: real)
    ensures Best(ts, cands, now) == None <==> forall c :: c in cands ==> !IsEligible(ts, c, now)
    ensures Best(ts, cands, now).Some? ==>
              var b := Best(ts, cands, now).value;
              forall c :: c in cands && IsEligible(ts, c, now) ==> Ratio(ts[b]) <= Ratio(ts[c])
    ensures Best(ts, cands, now).Some? ==>
              var b := Best(ts, cands, now).value;
              exists k :: 0 <= k < |cands| && cands[k] == b &&
                forall j :: 0 <= j < k && IsEligible(ts, cands[j], now) ==> Ratio(ts[b]) < Ratio(ts[cands[j]])
  {
    if cands != [] {
      var front, c := cands[..|cands| - 1], cands[|cands| - 1];
      BestIsLeast(ts, front, now);
      assert cands == front + [c];
      var b := Best(ts, cands, now);
      if b.Some? && b != Best(ts, front, now) {
        assert cands[|cands| - 1] == b.value;
        forall j | 0 <= j < |cands| - 1 && IsEligible(ts, cands[j], now)
          ensures Ratio(ts[b.value]) < Ratio(ts[cands[j]])
        {
          assert cands[j] == front[j];
        }
      } else if b.Some? {
        var k :| 0 <= k < |front| && front[k] == b.value &&
          forall j :: 0 <= j < k && IsEligible(ts, front[j], now) ==> Ratio(ts[b.value]) < Ratio(ts[front[j]]);
        assert cands[k] == b.value;
        forall j | 0 <= j < k && IsEligible(ts, cands[j], now) ensures Ratio(ts[b.value]) < Ratio(ts[cands[j]]) {
          assert cands[j] == front[j];
        }
      }
    }
  }

  /** Position of the first candidate nobody registered; the length when there is none. */
  function FirstUnknown(ts: Tenants, cands: seq<Id>): (k: nat)
    ensures k <= |cands|
    ensures forall j :: 0 <= j < k ==> cands[j] in ts
    ensures k < |cands| ==> cands[k] !in ts
  {
    if cands == [] || cands[0] !in ts then 0 else 1 + FirstUnknown(ts, cands[1..])
  }

  /** An unregistered candidate wins at once; otherwise the best of the registered ones. */
  function Pick(ts: Tenants, cands: seq<Id>, now: real): Option<Id> {
    var k := FirstUnknown(ts, cands);
    if k < |cands| then Some(cands[k]) else Best(ts, cands, now)
  }

  /** The windows of the tenants looked at are refreshed. */
  function RefreshedAll(ts: Tenants, seen: seq<Id>, now: real): Tenants {
    map t | t in ts :: if t in seen then Refreshed(ts[t], now) else ts[t]
  }

  function AfterPick(ts: Tenants, cands: seq<Id>, now: real): Tenants {
    RefreshedAll(ts, cands[..FirstUnknown(ts, cands)], now)
  }

  /** The tenant's quota, with the defaults when it is not registered. */
  function WithDefault(ts: Tenants, t: Id, maxConcurrent: nat, maxPerMinute: nat, now: real): Tenants {
    if t in ts then ts else ts[t := Quota(maxConcurrent, maxPerMinute, 1.0, 0, now, 0)]
  }

  /** Looking at a tenant again, at the same moment, answers as the first look did. */
  lemma ProbeAgrees(ts: Tenants, seen: seq<Id>, t: Id, now: real)
    requires t in ts
    ensures
      var mid := RefreshedAll(ts, seen, now);
      && (Allowed(mid[t], now) <==> Allowed(ts[t], now)) && Ratio(mid[t]) == Ratio(ts[t])
      && mid[t := Refreshed(mid[t], now)] == RefreshedAll(ts, seen + [t], now)
  {
  }

  /** Fewer active jobs than allowed, and room in the current minute or a new minute begun. */
  ghost predicate MaySubmit(q: Quota, now: real) {
    && q.active < q.maxConcurrent
    && (if now - q.windowStart >= 60.0 then 0 < q.maxPerMinute else q.minuteCount < q.maxPerMinute)
  }

  class TenantQuota {
    const tenantId: Id
    const maxConcurrent: nat
    const maxPerMinute: nat
    const weight: real
    var active: nat
    var windowStart: real
    var minuteCount: nat

    constructor (tenantId: Id, maxConcurrent: nat, maxPerMinute: nat, weight: real, now: real)
      ensures this.tenantId == tenantId
      ensures View() == Quota(maxConcurrent, maxPerMinute, weight, 0, now, 0)
    {
      this.tenantId, this.weight := tenantId, weight;
      this.maxConcurrent, this.maxPerMinute := maxConcurrent, maxPerMinute;
      active, windowStart, minuteCount := 0, now, 0;
    }

    ghost function View(): Quota
      reads this
    {
      Quota(maxConcurrent, maxPerMinute, weight, active, windowStart, minuteCount)
    }

    method CanSubmit(now: real) returns (ok: bool)
      modifies this
      ensures ok <==> Allowed(old(View()), now)
      ensures View() == Refreshed(old(View()), now)
      ensures ok <==> MaySubmit(old(View()), now)
      ensures active == old(active)
      ensures if old(active) < maxConcurrent && now - old(windowStart) >= 60.0
              then windowStart == now && minuteCount == 0
              else windowStart == old(windowStart) && minuteCount == old(minuteCount)
    {
      if active >= maxConcurrent {
        return false;
      }
      if now - windowStart >= 60.0 {
        windowStart := now;
        minuteCount := 0;
      }
      return minuteCount < maxPerMinute;
    }

    method RecordSubmit()
      modifies this
      ensures View() == Submitted(old(View()))
      ensures active == old(active) + 1 && minuteCount == old(minuteCount) + 1 && windowStart == old(windowStart)
    {
      active := active + 1;
      minuteCount := minuteCount + 1;
    }

    method RecordComplete()
      modifies this
      ensures View() == Completed(old(View()))
      ensures active == if old(active) > 0 then old(active) - 1 else 0
      ensures minuteCount == old(minuteCount) && windowStart == old(windowStart)
    {
      active := Monus(active, 1);
    }
  }

  class FairShareScheduler {
    const defaultMaxConcurrent: nat
    const defaultMaxPerMinute: nat
    var tenants: map<Id, TenantQuota>

    constructor (defaultMaxConcurrent: nat, defaultMaxPerMinute: nat)
      ensures Valid() && tenants == map[]
    {
      this.defaultMaxConcurrent, this.defaultMaxPerMinute := defaultMaxConcurrent, defaultMaxPerMinute;
      tenants := map[];
    }

    ghost predicate Valid()
      reads this
    {
      forall t :: t in tenants ==> tenants[t].tenantId == t
    }

    ghost function View(): Tenants
      reads this, tenants.Values
    {
      map t | t in tenants :: tenants[t].View()
    }

    method RegisterTenant(quota: TenantQuota)
      requires Valid()
      modifies this
      ensures Valid() && View() == old(View())[quota.tenantId := quota.View()]
    {
      tenants := tenants[quota.tenantId := quota];
      assert View().Keys == old(View()).Keys + {quota.tenantId};
    }

    method GetQuota(tenantId: Id, now: real) returns (q: TenantQuota)
      requires Valid()
      modifies this
      ensures Valid() && tenantId in tenants && tenants[tenantId] == q
      ensures q in old(tenants.Values) || fresh(q)
      ensures View() == WithDefault(old(View()), tenantId, defaultMaxConcurrent, defaultMaxPerMinute, now)
    {
      if tenantId !in tenants {
        var created := new TenantQuota(tenantId, defaultMaxConcurrent, defaultMaxPerMinute, 1.0, now);
        tenants := tenants[tenantId := created];
      }
      q := tenants[tenantId];
    }

    method RecordSubmit(tenantId: Id, now: real)
      requires Valid()
      modifies this, tenants.Values
      ensures Valid()
      ensures
        var ts := WithDefault(old(View()), tenantId, defaultMaxConcurrent, defaultMaxPerMinute, now);
        View() == ts[tenantId := Submitted(ts[tenantId])]
      ensures View().Keys == old(View()).Keys + {tenantId}
      ensures forall t :: t in old(View()) && t != tenantId ==> View()[t] == old(View())[t]
      ensures tenantId !in old(View()) ==>
                View()[tenantId] == Quota(defaultMaxConcurrent, defaultMaxPerMinute, 1.0, 1, now, 1)
    {
      var q := GetQuota(tenantId, now);
      ghost var ts := View();
      q.RecordSubmit();
      assert View() == ts[tenantId := Submitted(ts[tenantId])];
    }

    /** One registered candidate: may it submit, and at what ratio. */
    method Probe(t: Id, now: real) returns (ok: bool, ratio: real)
      requires Valid() && t in tenants
      modifies tenants.Values
      ensures Valid() && tenants == old(tenants)
      ensures ok <==> Allowed(old(View())[t], now)
      ensures ratio == Ratio(old(View())[t])
      ensures View() == old(View())[t := Refreshed(old(View())[t], now)]
    {
      var q := tenants[t];
      ghost var ts := View();
      ok := q.CanSubmit(now);
      ratio := q.active as real / if q.weight < 0.01 then 0.01 else q.weight;
      assert View() == ts[t := q.View()];
    }

    /** The loop over the candidates; the first unregistered one ends it. */
    method NextEligibleTenant(cands: seq<Id>, now: real) returns (best: Option<Id>)
      requires Valid()
      modifies tenants.Values
      ensures Valid() && tenants == old(tenants)
      ensures best == Pick(old(View()), cands, now)
      ensures View() == AfterPick(old(View()), cands, now)
    {
      best := None;
      var bestRatio := 0.0;
      ghost var ts := View();
      for i := 0 to |cands|
        invariant Valid() && tenants == old(tenants) && i <= FirstUnknown(ts, cands)
        invariant best == Best(ts, cands[..i], now)
        invariant best.Some? ==> bestRatio == Ratio(ts[best.value])
        invariant View() == RefreshedAll(ts, cands[..i], now)
      {
        var t := cands[i];
        if t !in tenants {
          return Some(t);
        }
        ProbeAgrees(ts, cands[..i], t, now);
        var ok, ratio := Probe(t, now);
        BestStep(ts, cands, i, now);
        if ok && (best == None || ratio < bestRatio) {
          bestRatio := ratio;
          best := Some(t);
        }
      }
      assert cands[..|cands|] == cands;
    }
  }

  lemma BestStep(ts: Tenants, cands: seq<Id>, i: nat, now: real)
    requires i < |cands|
    ensures cands[..i + 1] == cands[..i] + [cands[i]]
    ensures
      var before, c := Best(ts, cands[..i], now), cands[i];
      Best(ts, cands[..i + 1], now) ==
      if IsEligible(ts, c, now) && (before == None || Ratio(ts[c]) < Ratio(ts[before.value])) then Some(c) else before
  {
    assert cands[..i + 1][..i] == cands[..i];
  }

  // ---- The pick, written out ----

  lemma EligibleIff(ts: Tenants, t: Id, now: real)
    ensures IsEligible(ts, t, now) <==> t in ts && MaySubmit(ts[t], now)
  {
  }

  /** `a` per `w` is at most `b` per `v`. */
  ghost predicate CrossLeq(a: real, w: real, b: real, v: real) {
    a * v <= b * w
  }

  /** Comparing two quotients by cross multiplication. */
  lemma CrossMultiply(a: real, w: real, b: real, v: real)
    requires w > 0.0 && v > 0.0
    ensures a / w <= b / v <==> CrossLeq(a, w, b, v)
  {
    var x, y := a / w, b / v;
    assert a == x * w && b == y * v;
    assert a * v == x * (w * v) && b * w == y * (w * v);
    if x <= y {
      assert x * (w * v) <= y * (w * v);
    } else {
      assert y * (w * v) < x * (w * v);
    }
  }

  /** `b` has no more active jobs than `c` for its weight; weights below 0.01 count as 0.01. */
  ghost predicate NoBusier(b: Quota, c: Quota) {
    CrossLeq(b.active as real, if b.weight < 0.01 then 0.01 else b.weight,
             c.active as real, if c.weight < 0.01 then 0.01 else c.weight)
  }

  lemma RatioIsNoBusier(b: Quota, c: Quota)
    ensures Ratio(b) <= Ratio(c) <==> NoBusier(b, c)
  {
    CrossMultiply(b.active as real, Share(b), c.active as real, Share(c));
  }

  /** The pick is candidate `k`: it may submit, none that may is less busy for its weight, and every
      earlier one that may is busier. */
  ghost predicate PicksCandidate(ts: Tenants, cands: seq<Id>, now: real, k: int)
    requires forall c :: c in cands ==> c in ts
  {
    && 0 <= k < |cands| && MaySubmit(ts[cands[k]], now)
    && (forall c :: c in cands && MaySubmit(ts[c], now) ==> NoBusier(ts[cands[k]], ts[c]))
    && (forall i :: 0 <= i < k && MaySubmit(ts[cands[i]], now) ==> !NoBusier(ts[cands[i]], ts[cands[k]]))
  }

  /** Among registered candidates the pick is the first of the least busy that may submit, and
      nobody exactly when none may. */
  lemma PickWrittenOut(ts: Tenants, cands: seq<Id>, now: real)
    requires forall c :: c in cands ==> c in ts
    ensures Pick(ts, cands, now) == None <==> forall c :: c in cands ==> !MaySubmit(ts[c], now)
    ensures Pick(ts, cands, now).Some? ==>
              exists k :: PicksCandidate(ts, cands, now, k) && Pick(ts, cands, now) == Some(cands[k])
  {
    BestIsLeast(ts, cands, now);
    assert FirstUnknown(ts, cands) == |cands|;
    forall c | c in cands ensures IsEligible(ts, c, now) <==> MaySubmit(ts[c], now) {
      EligibleIff(ts, c, now);
    }
    if Pick(ts, cands, now).Some? {
      var b := Pick(ts, cands, now).value;
      var k :| 0 <= k < |cands| && cands[k] == b &&
        forall j :: 0 <= j < k && IsEligible(ts, cands[j], now) ==> Ratio(ts[b]) < Ratio(ts[cands[j]]);
      forall c | c in cands && MaySubmit(ts[c], now) ensures NoBusier(ts[b], ts[c]) {
        RatioIsNoBusier(ts[b], ts[c]);
      }
      forall i | 0 <= i < k && MaySubmit(ts[cands[i]], now) ensures !NoBusier(ts[cands[i]], ts[b]) {
        RatioIsNoBusier(ts[cands[i]], ts[b]);
        assert cands[i] in cands;
      }
      assert PicksCandidate(ts, cands, now, k);
    }
  }

  /** The first candidate nobody registered is picked whatever the others' load. */
  lemma NewcomerIsPicked(ts: Tenants, cands: seq<Id>, now: real, k: nat)
    requires k < |cands| && cands[k] !in ts && forall i :: 0 <= i < k ==> cands[i] in ts
    ensures Pick(ts, cands, now) == Some(cands[k])
  {
    assert FirstUnknown(ts, cands) == k;
  }

  /** No two candidates meet the description of the pick, whatever their order. */
  lemma PickIsUnique(ts: Tenants, cands: seq<Id>, now: real, k: int, l: int)
    requires forall c :: c in cands ==> c in ts
    requires PicksCandidate(ts, cands, now, k) && PicksCandidate(ts, cands, now, l)
    ensures k == l
  {
    assert cands[k] in cands && cands[l] in cands;
  }

  /** A larger weight never costs a tenant the pick. */
  lemma HeavierStaysPicked(ts: Tenants, cands: seq<Id>, now: real, b: Id, weight: real)
    requires (forall c :: c in cands ==> c in ts) && Pick(ts, cands, now) == Some(b)
    requires b in ts && weight >= ts[b].weight
    ensures Pick(ts[b := ts[b].(weight := weight)], cands, now) == Some(b)
  {
    var ts' := ts[b := ts[b].(weight := weight)];
    PickWrittenOut(ts, cands, now);
    PickWrittenOut(ts', cands, now);
    var k :| PicksCandidate(ts, cands, now, k) && cands[k] == b;
    HeavierStillDescribed(ts, cands, now, k, weight);
    assert cands[k] in cands && MaySubmit(ts'[b], now);
    var l :| PicksCandidate(ts', cands, now, l) && Pick(ts', cands, now) == Some(cands[l]);
    PickIsUnique(ts', cands, now, k, l);
  }

  lemma HeavierStillDescribed(ts: Tenants, cands: seq<Id>, now: real, k: int, weight: real)
    requires (forall c :: c in cands ==> c in ts) && PicksCandidate(ts, cands, now, k)
    requires weight >= ts[cands[k]].weight
    ensures PicksCandidate(ts[cands[k] := ts[cands[k]].(weight := weight)], cands, now, k)
  {
    var b := cands[k];
    var ts' := ts[b := ts[b].(weight := weight)];
    forall c | c in cands && MaySubmit(ts'[c], now) ensures NoBusier(ts'[b], ts'[c]) {
      if c != b {
        assert NoBusier(ts[b], ts[c]);
        HeavierIsNoBusier(ts[b], ts[c], weight);
      }
    }
    forall i | 0 <= i < k && MaySubmit(ts'[cands[i]], now) ensures !NoBusier(ts'[cands[i]], ts'[b]) {
      assert !NoBusier(ts[cands[i]], ts[b]);
      HeavierIsNoBusier(ts[b], ts[cands[i]], weight);
    }
  }

  lemma HeavierStaysAhead(a: real, w: real, w': real, c: real, v: real)
    requires w <= w' && c >= 0.0
    ensures CrossLeq(a, w, c, v) ==> CrossLeq(a, w', c, v)
    ensures !CrossLeq(c, v, a, w) ==> !CrossLeq(c, v, a, w')
  {
    assert c * w <= c * w';
  }

  lemma HeavierIsNoBusier(b: Quota, c: Quota, weight: real)
    requires weight >= b.weight
    ensures NoBusier(b, c) ==> NoBusier(b.(weight := weight), c)
    ensures !NoBusier(c, b) ==> !NoBusier(c, b.(weight := weight))
  {
    HeavierStaysAhead(b.active as real, if b.weight < 0.01 then 0.01 else b.weight,
                      if weight < 0.01 then 0.01 else weight,
                      c.active as real, if c.weight < 0.01 then 0.01 else c.weight);
  }

  // ---- Weighted fairness ----

  /** A pick from the candidates, recorded at once, or the completion of a tenant's job. */
  datatype Event = Offer(cands: seq<Id>, now: real) | Done(tenant: Id)

  function Serve(ts: Tenants, cands: seq<Id>, now: real): Tenants {
    var seen := AfterPick(ts, cands, now);
    match Pick(ts, cands, now)
    case None => seen
    case Some(t) => if t in seen then seen[t := Submitted(seen[t])] else seen
  }

  function Step(ts: Tenants, e: Event): Tenants {
    match e
    case Offer(cands, now) => Serve(ts, cands, now)
    case Done(t) => if t in ts then ts[t := Completed(ts[t])] else ts
  }

  function StepAll(ts: Tenants, es: seq<Event>): Tenants
    decreases |es|
  {
    if es == [] then ts else StepAll(Step(ts, es[0]), es[1..])
  }

  /** A pick offers only registered tenants, `j` among them and not refused. */
  ghost predicate IsOffered(ts: Tenants, e: Event, j: Id) {
    e.Offer? ==> (forall c :: c in e.cands ==> c in ts) && j in e.cands && IsEligible(ts, j, e.now)
  }

  /** So does every pick of the run; any tenant's jobs may complete. */
  ghost predicate AlwaysOffered(ts: Tenants, es: seq<Event>, j: Id)
    decreases |es|
  {
    es == [] || (IsOffered(ts, es[0], j) && AlwaysOffered(Step(ts, es[0]), es[1..], j))
  }

  /** Whether the event completes a job of `j`. */
  function OwnCompletion(ts: Tenants, e: Event, j: Id): nat {
    if e == Done(j) && j in ts && ts[j].active > 0 then 1 else 0
  }

  /** The jobs of `j` that complete in the run. */
  function OwnCompletions(ts: Tenants, es: seq<Event>, j: Id): nat
    decreases |es|
  {
    if es == [] then 0 else OwnCompletion(ts, es[0], j) + OwnCompletions(Step(ts, es[0]), es[1..], j)
  }

  /** A tenant's jobs but one, per its weight, are at most another's with `more` added, per its own;
      weights below 0.01 count as 0.01. */
  ghost predicate AheadByOne(q: Quota, r: Quota, more: nat) {
    (q.active - 1) as real / (if q.weight < 0.01 then 0.01 else q.weight)
    <= (r.active + more) as real / (if r.weight < 0.01 then 0.01 else r.weight)
  }

  /** No tenant is more than one weighted job ahead of what `j` would have with `more` more jobs. */
  ghost predicate FairWithin(ts: Tenants, j: Id, more: nat) {
    j in ts && forall i :: i in ts && ts[i].active > 0 ==> AheadByOne(ts[i], ts[j], more)
  }

  /** No tenant is more than one weighted job ahead of `j`. */
  ghost predicate FairTo(ts: Tenants, j: Id) {
    FairWithin(ts, j, 0)
  }

  lemma DivMonotone(a: real, b: real, w: real)
    requires a <= b && w > 0.0
    ensures a / w <= b / w
  {
  }

  /** A pick that offers `j`, unrefused, takes a registered tenant of no greater ratio. */
  lemma PickIsNoWorse(ts: Tenants, cands: seq<Id>, now: real, j: Id)
    requires (forall c :: c in cands ==> c in ts) && j in cands && IsEligible(ts, j, now)
    ensures Pick(ts, cands, now).Some?
    ensures
      var t := Pick(ts, cands, now).value;
      && t in ts && Ratio(ts[t]) <= Ratio(ts[j])
      && Serve(ts, cands, now).Keys == ts.Keys
      && forall i :: i in ts ==>
           && Serve(ts, cands, now)[i].active == ts[i].active + (if i == t then 1 else 0)
           && Share(Serve(ts, cands, now)[i]) == Share(ts[i])
  {
    BestIsLeast(ts, cands, now);
    assert FirstUnknown(ts, cands) == |cands|;
  }

  lemma ServedStaysWithin(ts: Tenants, cands: seq<Id>, now: real, j: Id, more: nat, i: Id)
    requires FairWithin(ts, j, more) && IsOffered(ts, Offer(cands, now), j)
    requires i in ts && i in Serve(ts, cands, now) && j in Serve(ts, cands, now) && Serve(ts, cands, now)[i].active > 0
    ensures AheadByOne(Serve(ts, cands, now)[i], Serve(ts, cands, now)[j], more)
  {
    PickIsNoWorse(ts, cands, now, j);
    var z := Serve(ts, cands, now);
    DivMonotone((ts[j].active + more) as real, (z[j].active + more) as real, Share(ts[j]));
    if z[i].active == ts[i].active {
      assert AheadByOne(ts[i], ts[j], more);
    } else {
      DivMonotone(ts[j].active as real, (ts[j].active + more) as real, Share(ts[j]));
    }
  }

  lemma ServeKeepsFair(ts: Tenants, cands: seq<Id>, now: real, j: Id, more: nat)
    requires FairWithin(ts, j, more) && IsOffered(ts, Offer(cands, now), j)
    ensures FairWithin(Serve(ts, cands, now), j, more)
  {
    PickIsNoWorse(ts, cands, now, j);
    var z := Serve(ts, cands, now);
    forall i | i in z && z[i].active > 0 ensures AheadByOne(z[i], z[j], more) {
      ServedStaysWithin(ts, cands, now, j, more, i);
    }
  }

  /** A completion helps everybody else; one of the tenant's own may set it back by one job. */
  lemma CompletionKeepsFair(ts: Tenants, t: Id, j: Id, more: nat, after: nat)
    requires FairWithin(ts, j, more) && after == more + OwnCompletion(ts, Done(t), j)
    ensures FairWithin(Step(ts, Done(t)), j, after)
  {
    if t in ts && ts[t].active > 1 {
      DivMonotone((ts[t].active - 2) as real, (ts[t].active - 1) as real, Share(ts[t]));
    }
  }

  lemma StepKeepsFair(ts: Tenants, e: Event, j: Id, more: nat, after: nat)
    requires FairWithin(ts, j, more) && IsOffered(ts, e, j) && after == more + OwnCompletion(ts, e, j)
    ensures FairWithin(Step(ts, e), j, after)
  {
    match e
    case Offer(cands, now) => ServeKeepsFair(ts, cands, now, j, more);
    case Done(t) => CompletionKeepsFair(ts, t, j, more, after);
  }

  /** Weighted fair share over every run of recorded picks and of completions of anybody's jobs: a
      tenant that is always offered and never refused is at most one weighted job behind any
      other, once its own completed jobs are counted in; whether or not the others are offered. */
  lemma {:induction false} RunsAreFairUpToOwnCompletions(ts: Tenants, es: seq<Event>, j: Id, more: nat, after: nat)
    requires FairWithin(ts, j, more) && AlwaysOffered(ts, es, j) && after == more + OwnCompletions(ts, es, j)
    ensures FairWithin(StepAll(ts, es), j, after)
    decreases |es|
  {
    if es != [] {
      var mid := more + OwnCompletion(ts, es[0], j);
      StepKeepsFair(ts, es[0], j, more, mid);
      RunsAreFairUpToOwnCompletions(Step(ts, es[0]), es[1..], j, mid, after);
    }
  }

  lemma {:induction false} NoOwnCompletions(ts: Tenants, es: seq<Event>, j: Id)
    requires Done(j) !in es
    ensures OwnCompletions(ts, es, j) == 0
    decreases |es|
  {
    if es != [] {
      assert es[0] in es;
      NoOwnCompletions(Step(ts, es[0]), es[1..], j);
    }
  }

  /** Without completions of its own such a tenant is at most one weighted job behind any other. */
  lemma RunsAreFair(ts: Tenants, es: seq<Event>, j: Id)
    requires FairTo(ts, j) && AlwaysOffered(ts, es, j) && Done(j) !in es
    ensures FairTo(StepAll(ts, es), j)
  {
    NoOwnCompletions(ts, es, j);
    RunsAreFairUpToOwnCompletions(ts, es, j, 0, 0);
  }

  lemma IdleIsFair(ts: Tenants, j: Id)
    requires j in ts && forall i :: i in ts ==> ts[i].active == 0
    ensures FairTo(ts, j)
  {
  }

  /** From idle tenants on: the bound holds at the end of every run. */
  lemma RunsFromIdleAreFair(ts: Tenants, es: seq<Event>, j: Id)
    requires j in ts && (forall i :: i in ts ==> ts[i].active == 0) && AlwaysOffered(ts, es, j)
    ensures FairWithin(StepAll(ts, es), j, OwnCompletions(ts, es, j))
    ensures Done(j) !in es ==> FairTo(StepAll(ts, es), j)
  {
    IdleIsFair(ts, j);
    RunsAreFairUpToOwnCompletions(ts, es, j, 0, OwnCompletions(ts, es, j));
    if Done(j) !in es {
      RunsAreFair(ts, es, j);
    }
  }

  /** No run touches weights or limits, and none forgets a tenant. */
  lemma {:induction false} RunsKeepTerms(ts: Tenants, es: seq<Event>)
    ensures StepAll(ts, es).Keys == ts.Keys
    ensures forall t :: t in ts ==>
              var z := StepAll(ts, es)[t];
              z.weight == ts[t].weight && z.maxConcurrent == ts[t].maxConcurrent && z.maxPerMinute == ts[t].maxPerMinute
    decreases |es|
  {
    if es != [] {
      RunsKeepTerms(Step(ts, es[0]), es[1..]);
    }
  }

  // ---- When a tenant's own completions keep the bound ----

  /** With `k` jobs of `j` fewer, still no other tenant would be more than one weighted job ahead. */
  ghost predicate CanSpare(ts: Tenants, j: Id, k: nat)
    requires j in ts
  {
    forall i :: i in ts && i != j && ts[i].active > 0 ==>
      (ts[i].active - 1) as real / (if ts[i].weight < 0.01 then 0.01 else ts[i].weight)
      <= (if ts[j].active >= k then ts[j].active - k else 0) as real
         / (if ts[j].weight < 0.01 then 0.01 else ts[j].weight)
  }

  function Dones(j: Id, k: nat): seq<Event> {
    if k == 0 then [] else [Done(j)] + Dones(j, k - 1)
  }

  lemma {:induction false} DonesLower(ts: Tenants, j: Id, k: nat)
    requires j in ts
    ensures StepAll(ts, Dones(j, k)) == ts[j := ts[j].(active := Monus(ts[j].active, k))]
    decreases k
  {
    if k == 0 {
      assert ts[j := ts[j]] == ts;
    } else {
      var next := Step(ts, Done(j));
      assert Dones(j, k)[1..] == Dones(j, k - 1);
      DonesLower(next, j, k - 1);
      assert ts[j := next[j]][j := ts[j].(active := Monus(ts[j].active, k))] ==
             ts[j := ts[j].(active := Monus(ts[j].active, k))];
    }
  }

  lemma LoweredIsFairIff(ts: Tenants, j: Id, k: nat)
    requires j in ts
    ensures FairTo(ts[j := ts[j].(active := Monus(ts[j].active, k))], j) <==> CanSpare(ts, j, k)
  {
    var z := ts[j := ts[j].(active := Monus(ts[j].active, k))];
    if z[j].active > 0 {
      DivMonotone((z[j].active - 1) as real, z[j].active as real, Share(z[j]));
    }
    if FairTo(z, j) {
      forall i | i in ts && i != j && ts[i].active > 0
        ensures (ts[i].active - 1) as real / Share(ts[i]) <= Monus(ts[j].active, k) as real / Share(ts[j])
      {
        assert i in z && z[i] == ts[i];
      }
    }
  }

  /** The exact condition: `k` completions of its own leave a tenant fairly treated if and only if
      it could spare those jobs beforehand. */
  lemma OwnCompletionsKeepFairIff(ts: Tenants, j: Id, k: nat)
    requires j in ts
    ensures FairTo(StepAll(ts, Dones(j, k)), j) <==> CanSpare(ts, j, k)
  {
    DonesLower(ts, j, k);
    LoweredIsFairIff(ts, j, k);
  }

  /** The bound holds after every step of the run. */
  ghost predicate FairThroughout(ts: Tenants, es: seq<Event>, j: Id)
    decreases |es|
  {
    es == [] || (FairTo(Step(ts, es[0]), j) && FairThroughout(Step(ts, es[0]), es[1..], j))
  }

  /** Each of the tenant's own completions comes when it can spare that job. */
  ghost predicate SparesEachTime(ts: Tenants, es: seq<Event>, j: Id)
    decreases |es|
  {
    es == [] ||
    ((es[0] == Done(j) && j in ts ==> CanSpare(ts, j, 1)) && SparesEachTime(Step(ts, es[0]), es[1..], j))
  }

  /** ... and over every run the bound holds after every step if and only if each of the tenant's
      own completions comes when it can spare the job. */
  lemma {:induction false} RunsStayFairIff(ts: Tenants, es: seq<Event>, j: Id)
    requires FairTo(ts, j) && AlwaysOffered(ts, es, j)
    ensures FairThroughout(ts, es, j) <==> SparesEachTime(ts, es, j)
    decreases |es|
  {
    if es != [] {
      if es[0] == Done(j) {
        LoweredIsFairIff(ts, j, 1);
      } else {
        StepKeepsFair(ts, es[0], j, 0, 0);
      }
      if FairTo(Step(ts, es[0]), j) {
        RunsStayFairIff(Step(ts, es[0]), es[1..], j);
      }
    }
  }

  /** Two new tenants of equal weight and limits. */
  function TwoTenants(a: nat, b: nat): Tenants {
    map["a" := Quota(10, 60, 1.0, a, 0.0, a), "b" := Quota(10, 60, 1.0, b, 0.0, b)]
  }

  const BOTH_OFFERED := Offer(["a", "b"], 0.0)

  lemma PicksTheLesser(ts: Tenants, cands: seq<Id>, a: nat, b: nat)
    requires a < 10 && b < 10 && ts == TwoTenants(a, b) && cands == ["a", "b"]
    ensures Pick(ts, cands, 0.0) == if b < a then Some("b") else Some("a")
  {
    assert ts["a"].weight == ts["b"].weight == 1.0;
    assert cands[0] in cands && MaySubmit(ts["a"], 0.0) && MaySubmit(ts["b"], 0.0);
    PickWrittenOut(ts, cands, 0.0);
    var k :| PicksCandidate(ts, cands, 0.0, k) && Pick(ts, cands, 0.0) == Some(cands[k]);
    if k == 0 {
      assert cands[1] in cands && NoBusier(ts["a"], ts["b"]);
    } else {
      assert !NoBusier(ts[cands[0]], ts[cands[1]]);
    }
  }

  /** The one with fewer active jobs is served, the first on a tie. */
  lemma ServesTheLesser(a: nat, b: nat, a': nat, b': nat)
    requires a < 10 && b < 10
    requires if b < a then a' == a && b' == b + 1 else a' == a + 1 && b' == b
    ensures Step(TwoTenants(a, b), BOTH_OFFERED) == TwoTenants(a', b')
    ensures IsOffered(TwoTenants(a, b), BOTH_OFFERED, "b")
  {
    var ts, cands := TwoTenants(a, b), BOTH_OFFERED.cands;
    PicksTheLesser(ts, cands, a, b);
    assert FirstUnknown(ts, cands) == 2 && cands[..2] == cands;
    assert RefreshedAll(ts, cands, 0.0) == ts;
  }

  lemma StepFirst(ts: Tenants, e: Event, rest: seq<Event>, j: Id)
    ensures StepAll(ts, [e] + rest) == StepAll(Step(ts, e), rest)
    ensures AlwaysOffered(ts, [e] + rest, j) <==> IsOffered(ts, e, j) && AlwaysOffered(Step(ts, e), rest, j)
  {
    assert ([e] + rest)[1..] == rest;
  }

  lemma FourSteps(ts: Tenants, a: Event, b: Event, c: Event, d: Event, j: Id)
    ensures
      var t1, t2, t3 := Step(ts, a), Step(Step(ts, a), b), Step(Step(Step(ts, a), b), c);
      && StepAll(ts, [a, b, c, d]) == Step(t3, d)
      && (IsOffered(ts, a, j) && IsOffered(t1, b, j) && IsOffered(t2, c, j) && IsOffered(t3, d, j) ==>
            AlwaysOffered(ts, [a, b, c, d], j))
  {
    var t1, t2, t3 := Step(ts, a), Step(Step(ts, a), b), Step(Step(Step(ts, a), b), c);
    assert [a, b, c, d] == [a] + ([b] + ([c] + ([d] + [])));
    StepFirst(ts, a, [b] + ([c] + ([d] + [])), j);
    StepFirst(t1, b, [c] + ([d] + []), j);
    StepFirst(t2, c, [d] + [], j);
    StepFirst(t3, d, [], j);
  }

  /** Two jobs against one: the one with one job cannot spare it. */
  lemma CannotSpareItsOnlyJob(ts: Tenants)
    requires ts == TwoTenants(2, 1)
    ensures FairTo(ts, "b") && !CanSpare(ts, "b", 1) && !FairTo(Step(ts, Done("b")), "b")
  {
    assert ts["a"].active == 2 && Share(ts["a"]) == Share(ts["b"]) == 1.0;
    LoweredIsFairIff(ts, "b", 1);
  }

  lemma ThreePicks()
    ensures
      var t0, t1, t2 := TwoTenants(0, 0), TwoTenants(1, 0), TwoTenants(1, 1);
      && Step(t0, BOTH_OFFERED) == t1 && Step(t1, BOTH_OFFERED) == t2 && Step(t2, BOTH_OFFERED) == TwoTenants(2, 1)
      && IsOffered(t0, BOTH_OFFERED, "b") && IsOffered(t1, BOTH_OFFERED, "b") && IsOffered(t2, BOTH_OFFERED, "b")
  {
    ServesTheLesser(0, 0, 1, 0);
    ServesTheLesser(1, 0, 1, 1);
    ServesTheLesser(1, 1, 2, 1);
  }

  /** A run from idle tenants that breaks the bound: three picks leave "a" with two jobs and "b"
      with one, and when "b" finishes it, "a" is two weighted jobs ahead. */
  lemma OwnCompletionsOpenAGap(ts: Tenants, pick: Event)
    requires ts == TwoTenants(0, 0) && pick == BOTH_OFFERED
    ensures FairTo(ts, "b") && AlwaysOffered(ts, [pick, pick, pick, Done("b")], "b")
    ensures !FairTo(StepAll(ts, [pick, pick, pick, Done("b")]), "b")
  {
    ThreePicks();
    FourSteps(ts, pick, pick, pick, Done("b"), "b");
    CannotSpareItsOnlyJob(TwoTenants(2, 1));
    IdleIsFair(ts, "b");
  }
}
