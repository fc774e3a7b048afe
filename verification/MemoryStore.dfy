/** The lease object shared by a worker and its processor. */
module Leases {
  import opened Domain
  import opened JobStore

  class Lease {
    const job: JobId
    const token: Token
    const attempt: nat
    var version: nat
    var expiresAt: Time
    var stage: Stage

    function View(): LeaseView
      reads this
    {
      LeaseView(job, token, attempt, version, expiresAt, stage)
    }

    constructor (claimed: LeaseView)
      ensures View() == claimed
    {
      job, token, attempt := claimed.job, claimed.token, claimed.attempt;
      version, expiresAt, stage := claimed.version, claimed.expiresAt, claimed.stage;
    }

    method Observe(version: nat, expiresAt: Time, stage: Stage)
      modifies this
      ensures View() == old(View()).Observe(version, expiresAt, stage)
    {
      this.version, this.expiresAt, this.stage := version, expiresAt, stage;
    }
  }
}

/** The in-memory store as an object: a map of jobs changed in place. */
module MemoryStore {
  import opened Domain
  import opened Ordering
  import opened ClaimQueue
  import opened JobStore
  import opened Leases

  // The jobs outside `todo` have been expired, the others are untouched.
  ghost predicate Swept(jobs: Jobs, expired: Jobs, todo: set<JobId>, now: Time) {
    && todo <= jobs.Keys == expired.Keys
    && forall id <- jobs :: expired[id] == if id in todo then Expire(jobs[id], now) else jobs[id]
  }

  lemma SweptNext(jobs: Jobs, expired: Jobs, todo: set<JobId>, now: Time, id: JobId)
    requires Swept(jobs, expired, todo, now) && id in todo
    ensures Swept(jobs[id := Expire(jobs[id], now)], expired, todo - {id}, now)
  {
  }

  ghost function DueAmong(jobs: Jobs, todo: set<JobId>, now: Time): Queue {
    map id | id in jobs && id !in todo && Claimable(jobs[id], now) :: jobs[id].createdAt
  }

  // The selection is the first claimable job outside `todo`.
  ghost predicate Leads(jobs: Jobs, todo: set<JobId>, now: Time, selected: Option<(JobId, Time)>) {
    match selected
    case None => DueAmong(jobs, todo, now) == map[]
    case Some((id, createdAt)) => IsFirst(DueAmong(jobs, todo, now), id) && createdAt == jobs[id].createdAt
  }

  // Seeing one more job, the selection changes exactly when the job comes before it.
  lemma LeadsNext(jobs: Jobs, todo: set<JobId>, now: Time, selected: Option<(JobId, Time)>, id: JobId)
    requires id in jobs && id in todo && Leads(jobs, todo, now, selected)
    ensures var j := jobs[id];
            Leads(jobs, todo - {id}, now,
              if Claimable(j, now) && (selected.None? || Before(j.createdAt, id, selected.value.1, selected.value.0))
              then Some((id, j.createdAt)) else selected)
  {
    var j := jobs[id];
    var was, due := DueAmong(jobs, todo, now), DueAmong(jobs, todo - {id}, now);
    assert due == if Claimable(j, now) then was[id := j.createdAt] else was;
    if Claimable(j, now) && selected.Some? {
      var s := selected.value.0;
      LessTotal(id, s);
      forall other <- was | other != s && Before(j.createdAt, id, jobs[s].createdAt, s)
        ensures Before(j.createdAt, id, was[other], other)
      {
        if j.createdAt == was[other] { LessTransitive(id, s, other); }
      }
    }
  }

  lemma SweptAll(jobs: Jobs, expired: Jobs, now: Time, selected: Option<(JobId, Time)>)
    requires Swept(jobs, expired, {}, now) && Leads(expired, {}, now, selected)
    ensures jobs == expired
    ensures match selected
            case None => Due(jobs, now) == map[]
            case Some((id, createdAt)) => IsFirst(Due(jobs, now), id) && createdAt == jobs[id].createdAt
  {
    assert DueAmong(expired, {}, now) == Due(expired, now);
  }

  // A job a worker may take now: queued and due, or left by a worker whose
  // lease has expired.
  predicate Ripe(j: Job, now: Time) {
    && !j.deleteRequested
    && ((j.status.Queued? && j.nextAttemptAt <= now) || (j.status.Processing? && j.leaseUntil != 0 && j.leaseUntil <= now))
  }

  lemma RipeIsDue(jobs: Jobs, now: Time, id: JobId)
    ensures id in Due(ExpireAll(jobs, now), now) <==> id in jobs && Ripe(jobs[id], now)
  {
  }

  // A new job is ripe from its creation on, and a queued one from its next attempt on.
  lemma NewJobIsRipe(createdAt: Time, now: Time)
    ensures Ripe(NewJob(createdAt), now) <==> createdAt <= now
  {
  }

  // A claim takes a job exactly if one is ripe, and gives it a lease of the
  // requested length, or of five minutes.
  lemma ClaimTakes(jobs: Jobs, now: Time, duration: int, token: Token)
    ensures var (claimed, view) := JobStore.ClaimNext(jobs, now, duration, token);
            if view.None? then forall id <- jobs :: !Ripe(jobs[id], now)
            else ClaimedFor(jobs, claimed, view.value, now, duration, token)
  {
    var due := Due(ExpireAll(jobs, now), now);
    var view := JobStore.ClaimNext(jobs, now, duration, token).1;
    if view.None? {
      forall id <- jobs ensures !Ripe(jobs[id], now) { RipeIsDue(jobs, now, id); assert id !in due; }
    } else {
      RipeIsDue(jobs, now, view.value.job);
    }
  }

  ghost predicate ClaimedFor(jobs: Jobs, claimed: Jobs, l: LeaseView, now: Time, duration: int, token: Token) {
    && l.job in jobs && l.job in claimed && Ripe(jobs[l.job], now)
    && var j := claimed[l.job];
       && j.status.Processing? && j.stage == Fetching && j.attempts == jobs[l.job].attempts + 1
       && j.token == l.token == token && j.version == l.version && j.leaseUntil == l.expiresAt
       && j.leaseUntil == (if jobs[l.job].status.Queued? then Max(jobs[l.job].leaseUntil, now) else now)
                          + (if duration <= 0 then 300_000_000_000 else duration)
  }

  class Store {
    var jobs: Jobs

    constructor ()
      ensures jobs == map[]
    {
      jobs := map[];
    }

    method ClaimNext(now: Time, duration: int, token: Token) returns (lease: Lease?)
      modifies this
      ensures lease != null ==> fresh(lease)
      ensures var (claimed, view) := JobStore.ClaimNext(old(jobs), now, duration, token);
              jobs == claimed && (if lease == null then None else Some(lease.View())) == view
      ensures if lease == null then forall id <- old(jobs) :: !Ripe(old(jobs)[id], now)
              else ClaimedFor(old(jobs), jobs, lease.View(), now, duration, token)
    {
      ClaimTakes(jobs, now, duration, token);
      var selected := Sweep(now);
      if selected.None? { return null; }
      var id := selected.value.0;
      FirstUnique(Due(jobs, now), id, First(Due(jobs, now)).value);
      var job := jobs[id];
      var base := job.leaseUntil;
      if base < now {
        base := now;
      }
      job := job.(status := Processing, stage := Fetching, attempts := job.attempts + 1,
                  version := job.version + 1, token := token,
                  leaseUntil := base + LeaseDuration(duration));
      jobs := jobs[id := job];
      lease := new Lease(LeaseOf(id, job));
    }

    // The loop's first two branches: give up an expired delivery, requeue an
    // expired run.
    static method ExpireCandidate(found: Job, now: Time) returns (candidate: Job)
      ensures candidate == Expire(found, now)
    {
      candidate := found;
      if candidate.status.Delivering? && Expired(candidate, now) {
        candidate := candidate.(status := DeliveryFailed, stage := NoStage,
          failure := Some(DeliveryTimeout), completedAt := Some(now));
        candidate := candidate.(token := "", leaseUntil := NO_TIME, nextAttemptAt := now,
          version := candidate.version + 1);
        return;
      }
      if candidate.status.Processing? && Expired(candidate, now) {
        candidate := candidate.(status := Queued, stage := NoStage, token := "", leaseUntil := NO_TIME);
        candidate := candidate.(nextAttemptAt := now, failure := None, version := candidate.version + 1);
      }
    }

    // The loop of ClaimNext. Go visits the map in no fixed order: so does the
    // loop, and the outcome is the same for every order.
    method Sweep(now: Time) returns (selected: Option<(JobId, Time)>)
      modifies this
      ensures jobs == ExpireAll(old(jobs), now)
      ensures match selected
              case None => Due(jobs, now) == map[]
              case Some((id, createdAt)) => IsFirst(Due(jobs, now), id) && createdAt == jobs[id].createdAt
    {
      ghost var expired := ExpireAll(jobs, now);
      var todo := jobs.Keys;
      selected := None;
      while todo != {}
        invariant Swept(jobs, expired, todo, now)
        invariant Leads(expired, todo, now, selected)
        decreases todo
      {
        var id :| id in todo;
        var candidate := ExpireCandidate(jobs[id], now);
        SweptNext(jobs, expired, todo, now, id);
        LeadsNext(expired, todo, now, selected, id);
        jobs, todo := jobs[id := candidate], todo - {id};
        if candidate.status.Queued? && !candidate.deleteRequested && candidate.nextAttemptAt <= now
           && (selected.None? || candidate.createdAt < selected.value.1
               || (candidate.createdAt == selected.value.1 && Less(id, selected.value.0))) {
          selected := Some((id, candidate.createdAt));
        }
      }
      SweptAll(jobs, expired, now, selected);
    }

    method RenewLease(lease: Lease?, duration: int, clock: Time) returns (result: Result)
      modifies this, lease
      ensures lease == null ==> result == LeaseLost && jobs == old(jobs)
      ensures lease != null ==>
        Outcome(jobs, lease.View(), result) == JobStore.RenewLease(old(jobs), old(lease.View()), duration, clock)
      ensures result == Done <==>
                && lease != null && Usable(old(jobs), old(lease.View()), clock)
                && (old(jobs)[lease.job].status.Processing? || old(jobs)[lease.job].status.Delivering?)
      ensures result == Done ==>
                var j := old(jobs)[lease.job];
                var more := if duration <= 0 then 300_000_000_000 else duration;
                jobs == old(jobs)[lease.job := j.(leaseUntil := j.leaseUntil + more, version := j.version + 1)]
    {
      if lease == null { return LeaseLost; }
      if lease.job !in jobs { return LeaseLost; }
      var job := jobs[lease.job];
      if (!job.status.Processing? && !job.status.Delivering?) || job.token != lease.token
         || job.version != lease.version || job.leaseUntil <= clock {
        return LeaseLost;
      }
      var base := if job.leaseUntil < clock then clock else job.leaseUntil;
      job := job.(leaseUntil := base + LeaseDuration(duration), version := job.version + 1);
      jobs := jobs[lease.job := job];
      lease.Observe(job.version, job.leaseUntil, job.stage);
      return Done;
    }

    method SetStage(lease: Lease?, stage: Stage, clock: Time) returns (result: Result)
      modifies this, lease
      ensures lease == null ==> result == (if stage.Valid() then LeaseLost else InvalidStage) && jobs == old(jobs)
      ensures lease != null ==>
        Outcome(jobs, lease.View(), result) == JobStore.SetStage(old(jobs), old(lease.View()), stage, clock)
      ensures result == Done <==>
                && lease != null && Usable(old(jobs), old(lease.View()), clock)
                && old(jobs)[lease.job].status.Processing? && old(jobs)[lease.job].stage.CanTransitionTo(stage)
      ensures result == Done ==>
                var j := old(jobs)[lease.job];
                jobs == old(jobs)[lease.job := j.(stage := stage, version := j.version + 1)]
    {
      if !stage.Valid() { return InvalidStage; }
      if lease == null { return LeaseLost; }
      if lease.job !in jobs { return LeaseLost; }
      var job := jobs[lease.job];
      if job.token != lease.token || !job.status.Processing? || job.version != lease.version
         || job.leaseUntil <= clock {
        return LeaseLost;
      }
      if !job.stage.CanTransitionTo(stage) { return InvalidStage; }
      job := job.(stage := stage, version := job.version + 1);
      jobs := jobs[lease.job := job];
      lease.Observe(job.version, job.leaseUntil, job.stage);
      return Done;
    }

    method Complete(lease: Lease?, completion: Completion, now: Time, clock: Time) returns (result: Result)
      modifies this, lease
      ensures lease == null ==> result == (if Incompletable(completion) then Incomplete else LeaseLost) && jobs == old(jobs)
      ensures lease != null ==>
        Outcome(jobs, lease.View(), result) == JobStore.Complete(old(jobs), old(lease.View()), completion, now, clock)
      ensures result == Done <==>
                && completion.contentId != "" && completion.artifact.available && completion.artifact.byteSize > 0
                && lease != null && Usable(old(jobs), old(lease.View()), clock)
                && old(jobs)[lease.job].status.Processing? && old(jobs)[lease.job].stage.Persisting?
      ensures result == Done ==>
                var j := old(jobs)[lease.job];
                jobs == old(jobs)[lease.job := j.(status := Ready, stage := NoStage, completedAt := Some(now),
                  content := Some(completion.contentId), artifact := Some(completion.artifact),
                  token := "", leaseUntil := 0, version := j.version + 1)]
    {
      if !completion.artifact.available || completion.artifact.byteSize <= 0 || completion.contentId == "" {
        return Incomplete;
      }
      if lease == null { return LeaseLost; }
      if lease.job !in jobs { return LeaseLost; }
      var job := jobs[lease.job];
      if job.token != lease.token || !job.status.Processing? || job.version != lease.version
         || job.leaseUntil <= clock {
        return LeaseLost;
      }
      if job.stage != Persisting { return InvalidStage; }
      job := job.(content := Some(completion.contentId), artifact := Some(completion.artifact));
      job := job.(status := Ready, stage := NoStage, completedAt := Some(now));
      job := job.(token := "", leaseUntil := NO_TIME, version := job.version + 1);
      jobs := jobs[lease.job := job];
      lease.Observe(job.version, job.leaseUntil, job.stage);
      return Done;
    }

    method Requeue(lease: Lease?, next: Time, clock: Time) returns (result: Result)
      modifies this, lease
      ensures lease == null ==> result == LeaseLost && jobs == old(jobs)
      ensures lease != null ==>
        Outcome(jobs, lease.View(), result) == JobStore.Requeue(old(jobs), old(lease.View()), next, clock)
      ensures result == Done <==> lease != null && Usable(old(jobs), old(lease.View()), clock)
      ensures result == Done ==>
                var j := old(jobs)[lease.job];
                jobs == old(jobs)[lease.job := j.(status := Queued, stage := NoStage, nextAttemptAt := next,
                  token := "", leaseUntil := 0, version := j.version + 1)]
    {
      if lease == null { return LeaseLost; }
      if lease.job !in jobs { return LeaseLost; }
      var job := jobs[lease.job];
      if job.token != lease.token || job.version != lease.version || job.leaseUntil <= clock {
        return LeaseLost;
      }
      job := job.(status := Queued, stage := NoStage, nextAttemptAt := next);
      job := job.(token := "", leaseUntil := NO_TIME, version := job.version + 1);
      jobs := jobs[lease.job := job];
      lease.Observe(job.version, job.leaseUntil, job.stage);
      return Done;
    }

    method Fail(lease: Lease?, category: FailureCategory, now: Time, clock: Time) returns (result: Result)
      modifies this, lease
      ensures lease == null ==> result == LeaseLost && jobs == old(jobs)
      ensures lease != null ==>
        Outcome(jobs, lease.View(), result) == JobStore.Fail(old(jobs), old(lease.View()), category, now, clock)
      ensures result == Done <==> lease != null && Usable(old(jobs), old(lease.View()), clock)
      ensures result == Done ==>
                var j := old(jobs)[lease.job];
                jobs == old(jobs)[lease.job := j.(status := Failed, stage := NoStage, completedAt := Some(now),
                  failure := Some(if category.OtherCategory? then InternalError else category),
                  token := "", leaseUntil := 0, version := j.version + 1)]
    {
      if lease == null { return LeaseLost; }
      if lease.job !in jobs { return LeaseLost; }
      var job := jobs[lease.job];
      if job.token != lease.token || job.version != lease.version || job.leaseUntil <= clock {
        return LeaseLost;
      }
      job := job.(status := Failed, stage := NoStage, failure := Some(category.Normalized()));
      job := job.(completedAt := Some(now), token := "", leaseUntil := NO_TIME, version := job.version + 1);
      jobs := jobs[lease.job := job];
      lease.Observe(job.version, job.leaseUntil, job.stage);
      return Done;
    }
  }
}
