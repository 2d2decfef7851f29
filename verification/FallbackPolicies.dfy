/** What happens to a job whose handler failed, by job type. */
module FallbackPolicies {
  import opened Basics
  import opened JobStates
  import opened MemoryBackend

  datatype Action = Retry | DeadLetter | Notify | Ignore

  datatype Policy = Policy(action: Action, deadLetterQueue: Id, notifyUrl: Option<Id>)

  type Policies = map<Id, Policy>

  const DEFAULT_POLICY := Policy(Retry, "dead_letter", None)

  datatype Decision = Decision(action: Action, status: JobStatus, shouldRaise: bool, deadLetterId: Option<Id>)

  /** The notifier is outside code; an exception from it escapes `apply`. */
  datatype ApplyResult = Decided(decision: Decision) | NotifierRaised

  function PolicyFor(policies: Policies, jobType: Id): Policy {
    if jobType in policies then policies[jobType] else DEFAULT_POLICY
  }

  predicate CallsNotifier(p: Policy) {
    p.action == Notify && p.notifyUrl.Some? && p.notifyUrl.value != ""
  }

  /** A queued job in the dead-letter queue that carries its source's id and no dependencies
      or resources. */
  function DeadLetterRec(rec: JobRec, queue: Id, source: Id, now: int): JobRec {
    JobRec(rec.jobType, queue, rec.priority, now, [], map[], Some(source), Queued, None)
  }

  function StoreAfter(p: Policy, st: Store, id: Id, rec: JobRec, freshId: Id, now: int): Store {
    match p.action
    case Retry => SetStatus(st, id, RetryWait)
    case DeadLetter => Put(SetStatus(st, id, Failed), freshId, DeadLetterRec(rec, p.deadLetterQueue, id, now))
    case Notify => SetStatus(st, id, Failed)
    case Ignore => SetStatus(st, id, Failed)
  }

  function DecisionOf(p: Policy, freshId: Id, notifierFails: bool): ApplyResult {
    if CallsNotifier(p) && notifierFails then NotifierRaised
    else Decided(Decision(p.action, if p.action == Retry then RetryWait else Failed, p.action == Retry,
                          if p.action == DeadLetter then Some(freshId) else None))
  }

  /** The answer for each action: only a retry lets the handler's error out, only a dead letter
      names a job, and a notification that fails answers nothing. */
  ghost predicate AnswersAs(p: Policy, r: ApplyResult, freshId: Id, notifierFails: bool) {
    match p.action
    case Retry => r == Decided(Decision(Retry, RetryWait, true, None))
    case DeadLetter => r == Decided(Decision(DeadLetter, Failed, false, Some(freshId)))
    case Ignore => r == Decided(Decision(Ignore, Failed, false, None))
    case Notify =>
      if notifierFails && p.notifyUrl.Some? && p.notifyUrl.value != "" then r == NotifierRaised
      else r == Decided(Decision(Notify, Failed, false, None))
  }

  /** What each action leaves in the store, job by job: the failed job's new status, for a dead
      letter one more queued job that keeps type and priority and nothing else but the failed
      job's id, and every other job as it was. */
  ghost predicate SettlesAs(p: Policy, st: Store, z: Store, id: Id, freshId: Id, now: int)
    requires id in st.jobs
  {
    && z.jobs.Keys == st.jobs.Keys + (if p.action == DeadLetter then {freshId} else {})
    && z.jobs[id] == st.jobs[id].(status := if p.action == Retry then RetryWait else Failed)
    && (forall k :: k in st.jobs && k != id ==> z.jobs[k] == st.jobs[k])
    && (p.action == DeadLetter ==>
          var letter, rec := z.jobs[freshId], st.jobs[id];
          && letter.jobType == rec.jobType && letter.queueName == p.deadLetterQueue
          && letter.priority == rec.priority && letter.createdAt == now
          && letter.dependsOn == [] && letter.resources == map[] && letter.source == Some(id)
          && letter.status == Queued && letter.claimedBy == None)
  }

  /** Every policy, under a dead-letter id not in use, settles as told; an unlisted job type is
      retried. */
  lemma PoliciesSettle(policies: Policies, st: Store, id: Id, freshId: Id, now: int)
    requires id in st.jobs && freshId !in st.jobs
    ensures
      var z := StoreAfter(PolicyFor(policies, st.jobs[id].jobType), st, id, st.jobs[id], freshId, now);
      if st.jobs[id].jobType in policies
      then SettlesAs(policies[st.jobs[id].jobType], st, z, id, freshId, now)
      else z.jobs == st.jobs[id := st.jobs[id].(status := RetryWait)]
  {
  }

  class FallbackPolicyManager {
    var policies: Policies

    constructor (policies: Policies)
      ensures this.policies == policies
    {
      this.policies := policies;
    }

    method SetPolicy(jobType: Id, policy: Policy)
      modifies this
      ensures policies == old(policies)[jobType := policy]
    {
      policies := policies[jobType := policy];
    }

    /** Fails the job and enqueues its dead letter. */
    method SendToDeadLetters(backend: MemoryQueueBackend, job: Job, queue: Id, freshId: Id, now: int)
      requires backend.Valid()
      modifies backend, backend.jobs.Values
      ensures backend.Valid()
      ensures backend.Contents() ==
              Put(SetStatus(old(backend.Contents()), job.id, Failed), freshId,
                  DeadLetterRec(old(job.Rec()), queue, job.id, now))
    {
      var rec := JobRec(job.jobType, queue, job.priority, now, [], map[], Some(job.id), Queued, None);
      var _ := backend.UpdateStatus(job.id, Failed);
      ghost var failed := backend.Contents();
      var letter := new Job(freshId, rec);
      assert backend.Contents() == failed;
      backend.Enqueue(letter);
    }

    method Apply(backend: MemoryQueueBackend, job: Job, freshId: Id, now: int, notifierFails: bool)
      returns (r: ApplyResult)
      requires backend.Valid()
      modifies backend, backend.jobs.Values
      ensures backend.Valid()
      ensures r == DecisionOf(PolicyFor(policies, job.jobType), freshId, notifierFails)
      ensures job.jobType !in policies ==> r == Decided(Decision(Retry, RetryWait, true, None))
      ensures job.jobType in policies ==> AnswersAs(policies[job.jobType], r, freshId, notifierFails)
      ensures backend.Contents() ==
              StoreAfter(PolicyFor(policies, job.jobType), old(backend.Contents()), job.id, old(job.Rec()),
                         freshId, now)
    {
      var policy := if job.jobType in policies then policies[job.jobType] else DEFAULT_POLICY;
      match policy.action
      case Retry =>
        var _ := backend.UpdateStatus(job.id, RetryWait);
        return Decided(Decision(Retry, RetryWait, true, None));
      case DeadLetter =>
        SendToDeadLetters(backend, job, policy.deadLetterQueue, freshId, now);
        return Decided(Decision(DeadLetter, Failed, false, Some(freshId)));
      case Notify =>
        var _ := backend.UpdateStatus(job.id, Failed);
        if policy.notifyUrl.Some? && policy.notifyUrl.value != "" && notifierFails {
          return NotifierRaised;
        }
        return Decided(Decision(Notify, Failed, false, None));
      case Ignore =>
        var _ := backend.UpdateStatus(job.id, Failed);
        return Decided(Decision(Ignore, Failed, false, None));
    }
  }
}
