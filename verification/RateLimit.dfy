/** What a fixed one-minute window guarantees over whole histories of one tenant. */
module RateLimit {
  import opened Basics
  import opened FairShare

  /** A submission: when it was made and the start of the window it was counted in. */
  datatype Mark = Mark(at: real, window: real)

  datatype History = History(q: Quota, marks: seq<Mark>)

  /** `Attempt` is `can_submit`, followed at once by `record_submit` when it answers True. */
  datatype Event = Attempt(at: real) | Poll(at: real) | Finish(at: real)

  function Apply(h: History, e: Event): History {
    match e
    case Attempt(at) =>
      var q := Refreshed(h.q, at);
      if Allowed(h.q, at) then History(Submitted(q), h.marks + [Mark(at, q.windowStart)]) else h.(q := q)
    case Poll(at) => h.(q := Refreshed(h.q, at))
    case Finish(_) => h.(q := Completed(h.q))
  }

  function ApplyAll(h: History, es: seq<Event>): History
    decreases |es|
  {
    if es == [] then h else ApplyAll(Apply(h, es[0]), es[1..])
  }

  /** The clock never runs back. */
  ghost predicate InOrder(from: real, es: seq<Event>)
    decreases |es|
  {
    es == [] || (from <= es[0].at && InOrder(es[0].at, es[1..]))
  }

  function CountIn(ms: seq<Mark>, lo: real, hi: real): nat {
    if ms == [] then 0
    else CountIn(ms[..|ms| - 1], lo, hi) + if lo <= ms[|ms| - 1].at < hi then 1 else 0
  }

  function CountWindow(ms: seq<Mark>, w: real): nat {
    if ms == [] then 0
    else CountWindow(ms[..|ms| - 1], w) + if ms[|ms| - 1].window == w then 1 else 0
  }

  /** Windows of marks are a minute or more apart and never over-full; the current one holds
      exactly the counted submissions. */
  ghost predicate WellWindowed(h: History, clock: real) {
    && h.q.windowStart <= clock
    && (forall m :: m in h.marks ==> m.window <= m.at < m.window + MINUTE && m.at <= clock)
    && (forall m :: m in h.marks ==> m.window == h.q.windowStart || m.window + MINUTE <= h.q.windowStart)
    && (forall m, n :: m in h.marks && n in h.marks ==>
          m.window == n.window || m.window + MINUTE <= n.window || n.window + MINUTE <= m.window)
    && (forall w :: CountWindow(h.marks, w) <= h.q.maxPerMinute)
    && CountWindow(h.marks, h.q.windowStart) == h.q.minuteCount
    && h.q.active <= h.q.maxConcurrent
  }

  lemma {:induction false} NoMarksOfWindow(ms: seq<Mark>, w: real)
    requires forall m :: m in ms ==> m.window != w
    ensures CountWindow(ms, w) == 0
  {
    if ms != [] {
      assert ms[|ms| - 1] in ms;
      NoMarksOfWindow(ms[..|ms| - 1], w);
    }
  }

  lemma RefreshKeepsWindows(h: History, clock: real, at: real)
    requires WellWindowed(h, clock) && clock <= at
    ensures WellWindowed(h.(q := Refreshed(h.q, at)), at)
  {
    var q := Refreshed(h.q, at);
    if q.windowStart != h.q.windowStart {
      forall m | m in h.marks ensures m.window + MINUTE <= q.windowStart {
        assert m.window == h.q.windowStart || m.window + MINUTE <= h.q.windowStart;
      }
      NoMarksOfWindow(h.marks, q.windowStart);
    }
  }

  lemma SubmitKeepsWindows(h: History, at: real)
    requires WellWindowed(h, at)
    requires h.q.active < h.q.maxConcurrent && h.q.minuteCount < h.q.maxPerMinute && at - h.q.windowStart < MINUTE
    ensures WellWindowed(History(Submitted(h.q), h.marks + [Mark(at, h.q.windowStart)]), at)
  {
    var m0 := Mark(at, h.q.windowStart);
    var marks := h.marks + [m0];
    assert marks[..|marks| - 1] == h.marks;
    forall w ensures CountWindow(marks, w) == CountWindow(h.marks, w) + if w == m0.window then 1 else 0 {}
    assert forall m :: m in marks <==> m in h.marks || m == m0;
  }

  lemma EventKeepsWindows(h: History, clock: real, e: Event)
    requires WellWindowed(h, clock) && clock <= e.at
    ensures WellWindowed(Apply(h, e), e.at)
  {
    if !e.Finish? {
      RefreshKeepsWindows(h, clock, e.at);
      if e.Attempt? && Allowed(h.q, e.at) {
        SubmitKeepsWindows(h.(q := Refreshed(h.q, e.at)), e.at);
      }
    }
  }

  function EndClock(from: real, es: seq<Event>): real {
    if es == [] then from else es[|es| - 1].at
  }

  /** Every history keeps its windows apart and within the quota, and the tenant within its
      concurrency limit. */
  lemma {:induction false} HistoriesAreWindowed(h: History, from: real, es: seq<Event>)
    requires WellWindowed(h, from) && InOrder(from, es)
    ensures WellWindowed(ApplyAll(h, es), EndClock(from, es))
    decreases |es|
  {
    if es != [] {
      EventKeepsWindows(h, from, es[0]);
      assert EndClock(from, es) == EndClock(es[0].at, es[1..]);
      HistoriesAreWindowed(Apply(h, es[0]), es[0].at, es[1..]);
    }
  }

  /** Marks of an interval that all fall in two windows are no more than those windows hold. */
  lemma {:induction false} CountByWindows(ms: seq<Mark>, lo: real, hi: real, v: real, w: real)
    requires forall m :: m in ms && lo <= m.at < hi ==> m.window == v || m.window == w
    ensures CountIn(ms, lo, hi) <= CountWindow(ms, v) + CountWindow(ms, w)
  {
    if ms != [] {
      assert ms[|ms| - 1] in ms;
      CountByWindows(ms[..|ms| - 1], lo, hi, v, w);
    }
  }

  ghost predicate InMinute(m: Mark, lo: real) {
    lo <= m.at < lo + MINUTE
  }

  /** A half-open minute meets at most two windows, so it holds at most twice the quota. */
  lemma MinuteHoldsTwiceTheQuota(h: History, clock: real, lo: real)
    requires WellWindowed(h, clock)
    ensures CountIn(h.marks, lo, lo + MINUTE) <= 2 * h.q.maxPerMinute
  {
    var v, w := h.q.windowStart, h.q.windowStart;
    if a :| a in h.marks && InMinute(a, lo) {
      v := a.window;
      w := v;
      if b :| b in h.marks && InMinute(b, lo) && b.window != v {
        w := b.window;
      }
    }
    forall m | m in h.marks && lo <= m.at < lo + MINUTE ensures m.window == v || m.window == w {
      assert InMinute(m, lo);
    }
    CountByWindows(h.marks, lo, lo + MINUTE, v, w);
  }

  /** Rate bound over every history: any half-open 60-second interval holds at most twice
      `max_per_minute` submissions, and the tenant never runs more than `max_concurrent` jobs. */
  lemma RateBound(h: History, from: real, es: seq<Event>, lo: real)
    requires WellWindowed(h, from) && InOrder(from, es)
    ensures CountIn(ApplyAll(h, es).marks, lo, lo + MINUTE) <= 2 * ApplyAll(h, es).q.maxPerMinute
    ensures ApplyAll(h, es).q.active <= ApplyAll(h, es).q.maxConcurrent
  {
    HistoriesAreWindowed(h, from, es);
    MinuteHoldsTwiceTheQuota(ApplyAll(h, es), EndClock(from, es), lo);
  }

  /** A job is only finished while one is active. */
  ghost predicate FinishesMatch(h: History, es: seq<Event>)
    decreases |es|
  {
    es == [] || ((es[0].Finish? ==> h.q.active > 0) && FinishesMatch(Apply(h, es[0]), es[1..]))
  }

  function Finishes(es: seq<Event>): nat
    decreases |es|
  {
    if es == [] then 0 else (if es[0].Finish? then 1 else 0) + Finishes(es[1..])
  }

  /** The active count is exactly the submissions not yet finished. */
  lemma {:induction false} ActiveIsOutstanding(h: History, es: seq<Event>)
    requires FinishesMatch(h, es)
    ensures ApplyAll(h, es).q.active + Finishes(es) + |h.marks| == h.q.active + |ApplyAll(h, es).marks|
    decreases |es|
  {
    if es != [] {
      ActiveIsOutstanding(Apply(h, es[0]), es[1..]);
    }
  }

  // ---- When the quota does bound every minute ----

  /** A tenant's history when its quota is created at `now`. */
  function NewHistory(maxConcurrent: nat, maxPerMinute: nat, weight: real, now: real): History {
    History(Quota(maxConcurrent, maxPerMinute, weight, 0, now, 0), [])
  }

  lemma NewQuotaIsWindowed(maxConcurrent: nat, maxPerMinute: nat, weight: real, now: real)
    ensures WellWindowed(NewHistory(maxConcurrent, maxPerMinute, weight, now), now)
  {
  }

  /** `n` jobs one after the other at one moment, each submitted and finished. */
  function Pairs(n: nat, at: real): seq<Event> {
    if n == 0 then [] else [Attempt(at), Finish(at)] + Pairs(n - 1, at)
  }

  lemma {:induction false} PairsAreInOrder(n: nat, at: real, from: real, rest: seq<Event>)
    requires from <= at && InOrder(at, rest)
    ensures InOrder(from, Pairs(n, at) + rest)
    decreases n
  {
    if n == 0 {
      assert [] + rest == rest;
      assert rest != [] ==> from <= rest[0].at;
    } else {
      PairsAreInOrder(n - 1, at, at, rest);
      var es := Pairs(n, at) + rest;
      assert es == [Attempt(at), Finish(at)] + (Pairs(n - 1, at) + rest);
      assert es[1..][1..] == Pairs(n - 1, at) + rest;
    }
  }

  lemma {:induction false} ApplyAllConcat(h: History, a: seq<Event>, b: seq<Event>)
    ensures ApplyAll(h, a + b) == ApplyAll(ApplyAll(h, a), b)
    ensures FinishesMatch(h, a + b) <==> FinishesMatch(h, a) && FinishesMatch(ApplyAll(h, a), b)
    decreases |a|
  {
    if a == [] {
      assert a + b == b;
    } else {
      assert (a + b)[1..] == a[1..] + b;
      ApplyAllConcat(Apply(h, a[0]), a[1..], b);
    }
  }

  /** One such job, with a slot free and room in the window. */
  lemma OnePair(h: History, at: real, lo: real, hi: real)
    requires lo <= at < hi && h.q.active < h.q.maxConcurrent
    requires Refreshed(h.q, at).minuteCount < h.q.maxPerMinute
    ensures
      var z := ApplyAll(h, [Attempt(at), Finish(at)]);
      && z.q == Refreshed(h.q, at).(minuteCount := Refreshed(h.q, at).minuteCount + 1)
      && CountIn(z.marks, lo, hi) == CountIn(h.marks, lo, hi) + 1
      && FinishesMatch(h, [Attempt(at), Finish(at)])
  {
    var z := Apply(h, Attempt(at));
    assert z.marks[..|z.marks| - 1] == h.marks;
    assert [Attempt(at), Finish(at)][1..] == [Finish(at)] && [Finish(at)][1..] == [];
    assert ApplyAll(z, [Finish(at)]) == ApplyAll(Apply(z, Finish(at)), []);
  }

  /** With a slot free and room for `n`, all `n` jobs go through, one active at a time. */
  lemma {:induction false} PairsGoThrough(h: History, n: nat, at: real, lo: real, hi: real)
    requires lo <= at < hi && h.q.active < h.q.maxConcurrent
    requires n > 0 && Refreshed(h.q, at).minuteCount + n <= h.q.maxPerMinute
    ensures
      var z := ApplyAll(h, Pairs(n, at));
      && z.q == Refreshed(h.q, at).(minuteCount := Refreshed(h.q, at).minuteCount + n)
      && CountIn(z.marks, lo, hi) == CountIn(h.marks, lo, hi) + n
      && FinishesMatch(h, Pairs(n, at))
    decreases n
  {
    var pair := [Attempt(at), Finish(at)];
    OnePair(h, at, lo, hi);
    ApplyAllConcat(h, pair, Pairs(n - 1, at));
    if n > 1 {
      PairsGoThrough(ApplyAll(h, pair), n - 1, at, lo, hi);
    }
  }

  /** The full quota just before the window turns, and again as it turns. */
  function TwoBursts(maxPerMinute: nat, now: real): seq<Event> {
    Pairs(maxPerMinute, now + 59.0) + Pairs(maxPerMinute, now + 60.0)
  }

  /** The factor two is reached by every quota that lets anything through at all: jobs submitted
      and finished one at a time, `max_per_minute` of them 59 seconds after the window opened and
      as many a second later, all fall into one minute. */
  lemma TwoBurstsInOneMinute(maxConcurrent: nat, maxPerMinute: nat, weight: real, now: real)
    requires maxConcurrent > 0 && maxPerMinute > 0
    ensures
      var h, es := NewHistory(maxConcurrent, maxPerMinute, weight, now), TwoBursts(maxPerMinute, now);
      && InOrder(now, es) && FinishesMatch(h, es)
      && CountIn(ApplyAll(h, es).marks, now + 59.0, now + 59.0 + MINUTE) == 2 * maxPerMinute
  {
    var h, n := NewHistory(maxConcurrent, maxPerMinute, weight, now), maxPerMinute;
    var late := Pairs(n, now + 60.0);
    var lo, hi := now + 59.0, now + 59.0 + MINUTE;
    assert late + [] == late;
    PairsAreInOrder(n, now + 60.0, now + 59.0, []);
    PairsAreInOrder(n, now + 59.0, now, late);
    ApplyAllConcat(h, Pairs(n, now + 59.0), late);
    PairsGoThrough(h, n, now + 59.0, lo, hi);
    PairsGoThrough(ApplyAll(h, Pairs(n, now + 59.0)), n, now + 60.0, lo, hi);
  }

  ghost predicate MinuteWithinQuota(h: History, es: seq<Event>, lo: real) {
    CountIn(ApplyAll(h, es).marks, lo, lo + MINUTE) <= h.q.maxPerMinute
  }

  /** Over every history on a clock that never runs back, every half-open minute holds at most
      `max_per_minute` submissions. */
  ghost predicate RateHolds(h: History, now: real) {
    forall es, lo :: InOrder(now, es) ==> MinuteWithinQuota(h, es, lo)
  }

  lemma {:induction false} LimitsStay(h: History, es: seq<Event>)
    ensures ApplyAll(h, es).q.maxPerMinute == h.q.maxPerMinute
    ensures ApplyAll(h, es).q.maxConcurrent == h.q.maxConcurrent
    ensures h.q.maxConcurrent == 0 ==> ApplyAll(h, es).marks == h.marks
    decreases |es|
  {
    if es != [] {
      LimitsStay(Apply(h, es[0]), es[1..]);
    }
  }

  /** The exact condition: `max_per_minute` bounds every minute of a tenant if and only if it or
      `max_concurrent` is zero, so that nothing is ever submitted. */
  lemma RateHoldsIff(maxConcurrent: nat, maxPerMinute: nat, weight: real, now: real)
    ensures RateHolds(NewHistory(maxConcurrent, maxPerMinute, weight, now), now) <==>
            maxPerMinute == 0 || maxConcurrent == 0
  {
    var h := NewHistory(maxConcurrent, maxPerMinute, weight, now);
    if maxPerMinute > 0 && maxConcurrent > 0 {
      TwoBurstsInOneMinute(maxConcurrent, maxPerMinute, weight, now);
      assert !MinuteWithinQuota(h, TwoBursts(maxPerMinute, now), now + 59.0);
    } else {
      NewQuotaIsWindowed(maxConcurrent, maxPerMinute, weight, now);
      forall es, lo | InOrder(now, es) ensures MinuteWithinQuota(h, es, lo) {
        LimitsStay(h, es);
        RateBound(h, now, es, lo);
      }
    }
  }
  // ---- When an attempt goes through ----

  /** After every history of a new quota: an attempt is a submission exactly when fewer jobs are
      outstanding than `max_concurrent` and the current window, or a new one when a minute has
      passed, has room; a refused attempt leaves no mark. */
  lemma AttemptGoesThroughIff(maxConcurrent: nat, maxPerMinute: nat, weight: real, now: real, es: seq<Event>, at: real)
    requires InOrder(now, es) && FinishesMatch(NewHistory(maxConcurrent, maxPerMinute, weight, now), es)
    requires EndClock(now, es) <= at
    ensures
      var z := ApplyAll(NewHistory(maxConcurrent, maxPerMinute, weight, now), es);
      var w := z.q.windowStart;
      Apply(z, Attempt(at)).marks ==
      if |z.marks| - Finishes(es) < maxConcurrent
         && (if at - w >= 60.0 then 0 < maxPerMinute else CountWindow(z.marks, w) < maxPerMinute)
      then z.marks + [Mark(at, if at - w >= 60.0 then at else w)] else z.marks
  {
    var h := NewHistory(maxConcurrent, maxPerMinute, weight, now);
    NewQuotaIsWindowed(maxConcurrent, maxPerMinute, weight, now);
    HistoriesAreWindowed(h, now, es);
    ActiveIsOutstanding(h, es);
    LimitsStay(h, es);
  }
}
