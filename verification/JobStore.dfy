/**
  The in-memory job store: what each operation does to the map of jobs and to
  the caller's lease. The class in MemoryStore.dfy carries these out in place;
  LeaseProtocol.dfy proves what any interleaving of them keeps.
*/
module JobStore {
  import opened Domain
  import opened ClaimQueue

  type JobId = string
  type Token = string      // "" is no token
  type Time = nat          // nanoseconds after the zero time.Time

  const NO_TIME: Time := 0
  const DEFAULT_LEASE := 300_000_000_000

  datatype Artifact = Artifact(key: string, byteSize: int, checksum: string, available: bool)

  datatype Completion = Completion(contentId: string, artifact: Artifact)

  datatype Job = Job(
    status: Status,
    stage: Stage,
    attempts: nat,
    createdAt: Time,
    nextAttemptAt: Time,
    version: nat,
    token: Token,
    leaseUntil: Time,
    failure: Option<FailureCategory>,
    completedAt: Option<Time>,
    content: Option<string>,
    artifact: Option<Artifact>,
    deleteRequested: bool)

  type Jobs = map<JobId, Job>

  // What a lease object shows: fixed at the claim are the job, the token and
  // the attempt number; the rest follows the operations made through it.
  datatype LeaseView = LeaseView(
    job: JobId, token: Token, attempt: nat,
    version: nat, expiresAt: Time, stage: Stage)
  {
    function Observe(version: nat, expiresAt: Time, stage: Stage): LeaseView {
      this.(version := version, expiresAt := expiresAt, stage := stage)
    }
  }

  datatype Result = Done | LeaseLost | InvalidStage | Incomplete | StorageFailure

  datatype Outcome = Outcome(jobs: Jobs, lease: LeaseView, result: Result)

  function Max(a: Time, b: Time): Time { if a < b then b else a }

  function LeaseDuration(requested: int): nat {
    if requested <= 0 then DEFAULT_LEASE else requested
  }

  // ------------------------------------------------------------- creation

  function NewJob(createdAt: Time): Job {
    Job(Queued, NoStage, 0, createdAt, createdAt, 1, "", NO_TIME, None, None, None, None, false)
  }

  // ---------------------------------------------------------------- claim

  predicate Expired(j: Job, now: Time) {
    j.leaseUntil != NO_TIME && j.leaseUntil <= now
  }

  function Expire(j: Job, now: Time): Job {
    if j.status.Delivering? && Expired(j, now) then
      j.(status := DeliveryFailed, stage := NoStage, failure := Some(DeliveryTimeout),
         completedAt := Some(now), token := "", leaseUntil := NO_TIME,
         nextAttemptAt := now, version := j.version + 1)
    else if j.status.Processing? && Expired(j, now) then
      j.(status := Queued, stage := NoStage, token := "", leaseUntil := NO_TIME,
         nextAttemptAt := now, failure := None, version := j.version + 1)
    else j
  }

  function ExpireAll(jobs: Jobs, now: Time): Jobs {
    map id | id in jobs :: Expire(jobs[id], now)
  }

  predicate Claimable(j: Job, now: Time) {
    j.status.Queued? && !j.deleteRequested && j.nextAttemptAt <= now
  }

  function Due(jobs: Jobs, now: Time): Queue {
    map id | id in jobs && Claimable(jobs[id], now) :: jobs[id].createdAt
  }

  function ClaimJob(j: Job, now: Time, duration: int, token: Token): Job {
    j.(status := Processing, stage := Fetching, attempts := j.attempts + 1,
       version := j.version + 1, token := token,
       leaseUntil := Max(j.leaseUntil, now) + LeaseDuration(duration))
  }

  function LeaseOf(id: JobId, j: Job): LeaseView {
    LeaseView(id, j.token, j.attempts, j.version, j.leaseUntil, j.stage)
  }

  ghost function ClaimNext(jobs: Jobs, now: Time, duration: int, token: Token): (Jobs, Option<LeaseView>) {
    var expired := ExpireAll(jobs, now);
    match First(Due(expired, now))
    case None => (expired, None)
    case Some(id) =>
      var claimed := ClaimJob(expired[id], now, duration, token);
      (expired[id := claimed], Some(LeaseOf(id, claimed)))
  }

  // ------------------------------------------------- operations on a lease

  // The lease still names the job's current token and revision.
  predicate Holds(jobs: Jobs, l: LeaseView) {
    l.job in jobs && jobs[l.job].token == l.token && jobs[l.job].version == l.version
  }

  // A lease with the current token and revision that has not expired.
  predicate Usable(jobs: Jobs, l: LeaseView, clock: Time) {
    && l.job in jobs && jobs[l.job].token == l.token && jobs[l.job].version == l.version
    && jobs[l.job].leaseUntil > clock
  }

  function Refuse(jobs: Jobs, l: LeaseView, result: Result): Outcome {
    Outcome(jobs, l, result)
  }

  // Stores the job's next state and lets the lease observe it.
  function Commit(jobs: Jobs, l: LeaseView, next: Job): Outcome {
    Outcome(jobs[l.job := next], l.Observe(next.version, next.leaseUntil, next.stage), Done)
  }

  function RenewLease(jobs: Jobs, l: LeaseView, duration: int, clock: Time): Outcome {
    if !Holds(jobs, l) || !jobs[l.job].status.Leased() || jobs[l.job].leaseUntil <= clock then
      Refuse(jobs, l, LeaseLost)
    else
      var j := jobs[l.job];
      Commit(jobs, l, j.(leaseUntil := Max(j.leaseUntil, clock) + LeaseDuration(duration),
                         version := j.version + 1))
  }

  function SetStage(jobs: Jobs, l: LeaseView, stage: Stage, clock: Time): Outcome {
    if !stage.Valid() then Refuse(jobs, l, InvalidStage)
    else if !Holds(jobs, l) || !jobs[l.job].status.Processing? || jobs[l.job].leaseUntil <= clock then
      Refuse(jobs, l, LeaseLost)
    else if !jobs[l.job].stage.CanTransitionTo(stage) then Refuse(jobs, l, InvalidStage)
    else
      var j := jobs[l.job];
      Commit(jobs, l, j.(stage := stage, version := j.version + 1))
  }

  predicate Incompletable(c: Completion) {
    !c.artifact.available || c.artifact.byteSize <= 0 || c.contentId == ""
  }

  function Complete(jobs: Jobs, l: LeaseView, c: Completion, now: Time, clock: Time): Outcome {
    if Incompletable(c) then Refuse(jobs, l, Incomplete)
    else if !Holds(jobs, l) || !jobs[l.job].status.Processing? || jobs[l.job].leaseUntil <= clock then
      Refuse(jobs, l, LeaseLost)
    else if jobs[l.job].stage != Persisting then Refuse(jobs, l, InvalidStage)
    else
      var j := jobs[l.job];
      Commit(jobs, l, j.(status := Ready, stage := NoStage, content := Some(c.contentId),
                         artifact := Some(c.artifact), completedAt := Some(now),
                         token := "", leaseUntil := NO_TIME, version := j.version + 1))
  }

  // Requeue and Fail check the token, the revision and the expiry but not the
  // status: an expiry in the future is only found on a leased job.
  function Requeue(jobs: Jobs, l: LeaseView, next: Time, clock: Time): Outcome {
    if !Holds(jobs, l) || jobs[l.job].leaseUntil <= clock then Refuse(jobs, l, LeaseLost)
    else
      var j := jobs[l.job];
      Commit(jobs, l, j.(status := Queued, stage := NoStage, nextAttemptAt := next,
                         token := "", leaseUntil := NO_TIME, version := j.version + 1))
  }

  function Fail(jobs: Jobs, l: LeaseView, category: FailureCategory, now: Time, clock: Time): Outcome {
    if !Holds(jobs, l) || jobs[l.job].leaseUntil <= clock then Refuse(jobs, l, LeaseLost)
    else
      var j := jobs[l.job];
      Commit(jobs, l, j.(status := Failed, stage := NoStage, failure := Some(category.Normalized()),
                         completedAt := Some(now), token := "", leaseUntil := NO_TIME,
                         version := j.version + 1))
  }

  // ----------------------------------------------------- the state of a job

  // A token, an expiry and a leased status come and go together, and a job
  // shows a stage exactly while it is processed.
  predicate JobOk(j: Job) {
    && (j.token != "" <==> j.status.Leased())
    && (j.leaseUntil != NO_TIME <==> j.status.Leased())
    && (j.status.Processing? <==> j.stage.Valid())
    && (!j.status.Processing? ==> j.stage == NoStage)
    && (j.status.Queued? || j.status.Leased() ==> j.failure.None? && j.completedAt.None?)
    && j.version > 0
  }

  ghost predicate JobsOk(jobs: Jobs) {
    forall id <- jobs :: JobOk(jobs[id])
  }
}
