/**
  The two job stores agree. A row and a job are related when they show the same
  work; related stores answer every operation alike and stay related.
*/
module AdapterSimulation {
  import opened Domain
  import opened ClaimQueue
  import opened JobStore
  import opened PostgresStore
  import opened LeaseProtocol

  predicate RelatedJob(j: Job, r: Row) {
    && j.status == r.status
    && j.stage == Or(r.stage, NoStage)
    && j.attempts == r.attempts
    && j.createdAt == r.createdAt
    && j.version == r.version
    && j.token == Or(r.token, "")
    && j.leaseUntil == Or(r.expires, NO_TIME)
    && j.failure == r.failure
    && j.completedAt == r.completedAt
    && j.artifact.Some? == r.hasPDF
    && (j.status.Queued? ==> j.nextAttemptAt == r.nextAttemptAt)
    && !j.deleteRequested
  }

  ghost predicate Related(jobs: Jobs, rows: Rows) {
    jobs.Keys == rows.Keys && forall id <- jobs :: RelatedJob(jobs[id], rows[id])
  }

  lemma UpdateRelated(jobs: Jobs, rows: Rows, id: JobId, j: Job, r: Row)
    requires Related(jobs, rows) && RelatedJob(j, r) && id in jobs
    ensures Related(jobs[id := j], rows[id := r])
  {
  }

  // ----------------------------------------------------------------- claim

  lemma ExpiredRelated(j: Job, r: Row, now: Time)
    requires JobOk(j) && RowOk(r) && RelatedJob(j, r)
    ensures RelatedJob(Expire(j, now), ReclaimRow(ExpireDelivery(r, now), now))
  {
  }

  lemma ExpiredStay(jobs: Jobs, rows: Rows, now: Time)
    requires JobsOk(jobs) && RowsOk(rows) && Related(jobs, rows)
    ensures Related(ExpireAll(jobs, now), Reclaim(ExpireDeliveries(rows, now), now))
  {
    forall id <- jobs
      ensures RelatedJob(ExpireAll(jobs, now)[id], Reclaim(ExpireDeliveries(rows, now), now)[id])
    {
      ExpiredRelated(jobs[id], rows[id], now);
    }
  }

  lemma RelatedDue(jobs: Jobs, rows: Rows, now: Time)
    requires Related(jobs, rows)
    ensures Due(jobs, now) == DueRows(rows, now)
  {
    assert forall id <- jobs :: RelatedJob(jobs[id], rows[id]);
  }

  lemma ExpirySimulates(jobs: Jobs, rows: Rows, now: Time)
    requires JobsOk(jobs) && RowsOk(rows) && Related(jobs, rows)
    ensures Related(ExpireAll(jobs, now), Reclaim(ExpireDeliveries(rows, now), now))
    ensures Due(ExpireAll(jobs, now), now) == DueRows(Reclaim(ExpireDeliveries(rows, now), now), now)
  {
    ExpiredStay(jobs, rows, now);
    RelatedDue(ExpireAll(jobs, now), Reclaim(ExpireDeliveries(rows, now), now), now);
  }

  lemma ClaimedSimulates(j: Job, r: Row, id: JobId, now: Time, duration: int, token: Token)
    requires JobOk(j) && RelatedJob(j, r) && j.status.Queued?
    ensures RelatedJob(ClaimJob(j, now, duration, token), ClaimRow(r, now, duration, token))
    ensures LeaseOf(id, ClaimJob(j, now, duration, token)) == RowLease(id, ClaimRow(r, now, duration, token))
  {
  }

  // Both adapters claim the same job, under the same lease.
  lemma ClaimSimulates(jobs: Jobs, rows: Rows, now: Time, duration: int, token: Token, clock: Time)
    requires JobsOk(jobs) && RowsOk(rows) && Related(jobs, rows)
    ensures var (claimedJobs, lease) := ClaimNext(jobs, Instant(now, clock), duration, token);
            var (claimedRows, rowLease) := ClaimNextRow(rows, now, duration, token, clock);
            Related(claimedJobs, claimedRows) && lease == rowLease
  {
    var instant := Instant(now, clock);
    var expired, ready := ExpireAll(jobs, instant), Reclaim(ExpireDeliveries(rows, instant), instant);
    ExpirySimulates(jobs, rows, instant);
    match First(Due(expired, instant))
    case None =>
    case Some(id) =>
      assert id in Due(expired, instant);
      assert JobOk(expired[id]) by { assert JobOk(jobs[id]); }
      var j, r := ClaimJob(expired[id], instant, duration, token), ClaimRow(ready[id], instant, duration, token);
      ClaimedSimulates(expired[id], ready[id], id, instant, duration, token);
      UpdateRelated(expired, ready, id, j, r);
      assert ClaimNext(jobs, instant, duration, token) == (expired[id := j], Some(LeaseOf(id, j)));
  }

  // --------------------------------------------------- operations on a lease

  function ApplyRow(rows: Rows, l: LeaseView, e: Event, configured: Option<string>): RowOutcome
    requires OnLease(e)
  {
    match e
    case Renew(_, duration, clock) => RenewRow(rows, l, duration, clock)
    case Stage(_, stage, clock) => StageRow(rows, l, stage, clock)
    case Finish(_, completion, now, clock) => CompleteRow(rows, l, completion, now, clock, configured)
    case Retry(_, next, clock) => RequeueRow(rows, l, next, clock)
    case GiveUp(_, category, now, clock) => FailRow(rows, l, category, now, clock)
  }

  // The event as the map adapter has to receive it: zero instants replaced by
  // the clock, and renewals rounded down to whole microseconds.
  function Normalised(e: Event): Event {
    match e
    case Claim(now, duration, token, clock) => Claim(Instant(now, clock), duration, token, clock)
    case Renew(i, duration, clock) => Renew(i, WholeMicros(duration), clock)
    case Finish(i, completion, now, clock) => Finish(i, completion, Instant(now, clock), clock)
    case Retry(i, next, clock) => Retry(i, Instant(next, clock), clock)
    case GiveUp(i, category, now, clock) => GiveUp(i, category, Instant(now, clock), clock)
    case _ => e
  }

  // The row is there but a column the operation reads is NULL.
  predicate ReadsNull(rows: Rows, l: LeaseView, e: Event) {
    && l.job in rows
    && ((e.Stage? && e.stage.Valid() && !rows[l.job].status.Leased())
        || (e.Finish? && !Incompletable(e.completion) && !rows[l.job].status.Processing?))
  }

  // Related stores answer alike and stay related, except that SetStage and
  // Complete on a row whose lease is released answer with a storage failure
  // where the map adapter answers that the lease is lost. Neither then changes
  // anything, and this is the only difference.
  ghost predicate Agree(jobs: Jobs, rows: Rows, l: LeaseView, e: Event, configured: Option<string>)
    requires OnLease(e)
  {
    var o, p := Apply(jobs, l, Normalised(e)), ApplyRow(rows, l, e, configured);
    && Related(o.jobs, p.rows) && o.lease == p.lease
    && (o.result == p.result <==> !ReadsNull(rows, l, e))
    && (ReadsNull(rows, l, e) ==> o.result == LeaseLost && p.result == StorageFailure
                                  && o.jobs == jobs && p.rows == rows)
  }

  // The lease matches on both sides, or on neither.
  ghost predicate Matching(jobs: Jobs, rows: Rows, l: LeaseView) {
    && JobsOk(jobs) && RowsOk(rows) && Related(jobs, rows)
    && l.token != "" && (Holds(jobs, l) ==> l == LeaseOf(l.job, jobs[l.job]))
  }

  lemma OneJob(jobs: Jobs, rows: Rows, l: LeaseView, clock: Time)
    requires Matching(jobs, rows, l)
    ensures l.job in jobs <==> l.job in rows
    ensures l.job in jobs ==> JobOk(jobs[l.job]) && RowOk(rows[l.job]) && RelatedJob(jobs[l.job], rows[l.job])
    ensures Holds(jobs, l) && jobs[l.job].leaseUntil > clock <==> Guard(rows, l, clock)
  {
  }

  lemma RenewSimulates(jobs: Jobs, rows: Rows, l: LeaseView, e: Event, configured: Option<string>)
    requires Matching(jobs, rows, l) && e.Renew?
    ensures Agree(jobs, rows, l, e, configured)
  {
    OneJob(jobs, rows, l, e.clock);
  }

  lemma StageSimulates(jobs: Jobs, rows: Rows, l: LeaseView, e: Event, configured: Option<string>)
    requires Matching(jobs, rows, l) && e.Stage?
    ensures Agree(jobs, rows, l, e, configured)
  {
    OneJob(jobs, rows, l, e.clock);
    var o, p := Apply(jobs, l, Normalised(e)), ApplyRow(rows, l, e, configured);
    if o.result == Done {
      UpdateRelated(jobs, rows, l.job, o.jobs[l.job], p.rows[l.job]);
    }
  }

  lemma CompleteSimulates(jobs: Jobs, rows: Rows, l: LeaseView, e: Event, configured: Option<string>)
    requires Matching(jobs, rows, l) && e.Finish?
    ensures Agree(jobs, rows, l, e, configured)
  {
    OneJob(jobs, rows, l, e.clock);
    var o, p := Apply(jobs, l, Normalised(e)), ApplyRow(rows, l, e, configured);
    if o.result == Done {
      assert p.result == Done;
      UpdateRelated(jobs, rows, l.job, o.jobs[l.job], p.rows[l.job]);
    } else {
      assert o.jobs == jobs && p.rows == rows;
    }
  }

  lemma RequeueSimulates(jobs: Jobs, rows: Rows, l: LeaseView, e: Event, configured: Option<string>)
    requires Matching(jobs, rows, l) && e.Retry?
    ensures Agree(jobs, rows, l, e, configured)
  {
    OneJob(jobs, rows, l, e.clock);
  }

  lemma FailSimulates(jobs: Jobs, rows: Rows, l: LeaseView, e: Event, configured: Option<string>)
    requires Matching(jobs, rows, l) && e.GiveUp?
    ensures Agree(jobs, rows, l, e, configured)
  {
    OneJob(jobs, rows, l, e.clock);
  }

  lemma OperationSimulates(jobs: Jobs, rows: Rows, l: LeaseView, e: Event, configured: Option<string>)
    requires Matching(jobs, rows, l) && OnLease(e)
    ensures Agree(jobs, rows, l, e, configured)
  {
    match e
    case Renew(_, _, _) => RenewSimulates(jobs, rows, l, e, configured);
    case Stage(_, _, _) => StageSimulates(jobs, rows, l, e, configured);
    case Finish(_, _, _, _) => CompleteSimulates(jobs, rows, l, e, configured);
    case Retry(_, _, _) => RequeueSimulates(jobs, rows, l, e, configured);
    case GiveUp(_, _, _, _) => FailSimulates(jobs, rows, l, e, configured);
  }

  // A worker that reports a stage after its job has failed hears of a lost
  // lease from the map adapter and of a storage failure from the database.
  lemma FinishedRowDisagrees()
    ensures var j := NewJob(1).(status := Failed, attempts := 1, version := 3, failure := Some(FetchFailed), completedAt := Some(2));
            var r := NewRow(1).(status := Failed, attempts := 1, version := 3, failure := Some(FetchFailed), completedAt := Some(2));
            var l := LeaseView("job", "token", 1, 3, NO_TIME, NoStage);
            && RelatedJob(j, r) && JobOk(j) && RowOk(r)
            && SetStage(map["job" := j], l, Extracting, 2).result == LeaseLost
            && StageRow(map["job" := r], l, Extracting, 2).result == StorageFailure
  {
  }

  // With the requested duration unchanged, the renewed expiries agree exactly
  // for durations of whole microseconds.
  lemma RenewalsAgreeOnWholeMicros(jobs: Jobs, rows: Rows, l: LeaseView, duration: int, clock: Time)
    requires JobsOk(jobs) && RowsOk(rows) && Related(jobs, rows)
    requires Holds(jobs, l) && l == LeaseOf(l.job, jobs[l.job])
    requires RenewLease(jobs, l, duration, clock).result == Done
    ensures RenewRow(rows, l, duration, clock).result == Done
    ensures RenewLease(jobs, l, duration, clock).lease == RenewRow(rows, l, duration, clock).lease
            <==> LeaseDuration(duration) % 1000 == 0
  {
    assert RelatedJob(jobs[l.job], rows[l.job]);
  }

  // Renewed for 1500 nanoseconds, one lease ends 500 nanoseconds before the other.
  lemma OddRenewalDisagrees()
    ensures var j := NewJob(1).(status := Processing, stage := Fetching, attempts := 1, version := 2,
                                token := "token", leaseUntil := 5000);
            var r := NewRow(1).(status := Processing, stage := Some(Fetching), attempts := 1, version := 2,
                                token := Some("token"), expires := Some(5000));
            var l := LeaseView("job", "token", 1, 2, 5000, Fetching);
            && RelatedJob(j, r) && JobOk(j) && RowOk(r) && l == LeaseOf("job", j)
            && RenewLease(map["job" := j], l, 1500, 2) == Outcome(map["job" := j.(leaseUntil := 6500, version := 3)],
                                                                  l.(expiresAt := 6500, version := 3), Done)
            && RenewRow(map["job" := r], l, 1500, 2).result == Done
            && RenewRow(map["job" := r], l, 1500, 2).lease.expiresAt == 6000
  {
  }

  // ------------------------------------------------------------------ runs

  datatype Database = Database(rows: Rows, leases: seq<LeaseView>)

  ghost function StepRow(d: Database, e: Event, configured: Option<string>): Database
    requires OnLease(e) ==> e.i < |d.leases|
  {
    if e.Create? then d.(rows := d.rows[e.id := NewRow(e.createdAt)])
    else if e.Delete? then d.(rows := d.rows - {e.id})
    else if e.Claim? then
      var (rows, lease) := ClaimNextRow(d.rows, e.now, e.duration, e.token, e.clock);
      Database(rows, if lease.None? then d.leases else d.leases + [lease.value])
    else
      var o := ApplyRow(d.rows, d.leases[e.i], e, configured);
      Database(o.rows, d.leases[e.i := o.lease])
  }

  // Both stores in one run: the database receives the events as they are, the
  // map adapter receives them normalised.
  ghost predicate Feasible2(w: World, run: seq<Event>)
    decreases |run|
  {
    run == [] || (Enabled(w, Normalised(run[0])) && Feasible2(Step(w, Normalised(run[0])), run[1..]))
  }

  ghost predicate Matched(w: World, d: Database) {
    Inv(w) && RowsOk(d.rows) && Related(w.jobs, d.rows) && w.leases == d.leases
  }

  lemma RowOperationKeepsChecks(rows: Rows, l: LeaseView, e: Event, configured: Option<string>)
    requires RowsOk(rows) && OnLease(e)
    ensures RowsOk(ApplyRow(rows, l, e, configured).rows)
  {
    if l.job in rows { assert RowOk(rows[l.job]); }
  }

  lemma RowClaimKeepsChecks(rows: Rows, now: Time, duration: int, token: Token, clock: Time)
    requires RowsOk(rows)
    ensures RowsOk(ClaimNextRow(rows, now, duration, token, clock).0)
  {
    var instant := Instant(now, clock);
    var expired := ExpireDeliveries(rows, instant);
    var ready := Reclaim(expired, instant);
    forall id <- ready ensures RowOk(ready[id]) {
      assert RowOk(rows[id]);
    }
    var first := First(DueRows(ready, instant));
    if first.Some? {
      assert first.value in DueRows(ready, instant) && RowOk(ready[first.value]);
    }
  }

  lemma ClaimsMatch(w: World, d: Database, e: Event, configured: Option<string>)
    requires Matched(w, d) && e.Claim? && Enabled(w, Normalised(e)) && Inv(Step(w, Normalised(e)))
    ensures Matched(Step(w, Normalised(e)), StepRow(d, e, configured))
  {
    ClaimSimulates(w.jobs, d.rows, e.now, e.duration, e.token, e.clock);
    RowClaimKeepsChecks(d.rows, e.now, e.duration, e.token, e.clock);
  }

  lemma OperationsMatch(w: World, d: Database, e: Event, configured: Option<string>)
    requires Matched(w, d) && OnLease(e) && Enabled(w, Normalised(e)) && Inv(Step(w, Normalised(e)))
    ensures Matched(Step(w, Normalised(e)), StepRow(d, e, configured))
  {
    var l := w.leases[e.i];
    if Holds(w.jobs, l) { assert Live(w, e.i); }
    OperationSimulates(w.jobs, d.rows, l, e, configured);
    RowOperationKeepsChecks(d.rows, l, e, configured);
  }

  lemma {:induction false} StepsMatch(w: World, d: Database, e: Event, configured: Option<string>)
    requires Matched(w, d) && Enabled(w, Normalised(e))
    ensures Matched(Step(w, Normalised(e)), StepRow(d, e, configured))
  {
    StepKeepsInv(w, Normalised(e));
    if e.Claim? {
      ClaimsMatch(w, d, e, configured);
    } else if OnLease(e) {
      OperationsMatch(w, d, e, configured);
    }
  }

  ghost function Exec2(w: World, d: Database, run: seq<Event>, configured: Option<string>): (World, Database)
    requires Feasible2(w, run) && w.leases == d.leases && Matched(w, d)
    decreases |run|
  {
    if run == [] then (w, d)
    else
      StepsMatch(w, d, run[0], configured);
      Exec2(Step(w, Normalised(run[0])), StepRow(d, run[0], configured), run[1..], configured)
  }

  // Over any run the two stores stay related, hand out the same leases, and
  // the rows keep every CHECK constraint of the table.
  lemma {:induction false} RunsMatch(w: World, d: Database, run: seq<Event>, configured: Option<string>)
    requires Matched(w, d) && Feasible2(w, run)
    ensures var (v, c) := Exec2(w, d, run, configured); Matched(v, c)
    decreases |run|
  {
    if run != [] {
      StepsMatch(w, d, run[0], configured);
      RunsMatch(Step(w, Normalised(run[0])), StepRow(d, run[0], configured), run[1..], configured);
    }
  }
}
