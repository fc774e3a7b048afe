/**
  Any interleaving of creations, deletions, claims and operations on leases.

  The world is the map of jobs together with every lease ever handed out.
  Clock readings are arguments of the events and may be any instants: nothing
  here needs a monotone clock. Job identifiers and tokens are fresh when drawn.
*/
module LeaseProtocol {
  import opened Domain
  import opened ClaimQueue
  import opened JobStore

  datatype Event =
    | Create(id: JobId, createdAt: Time)
    | Delete(id: JobId)
    | Claim(now: Time, duration: int, token: Token, clock: Time)
    | Renew(i: nat, duration: int, clock: Time)
    | Stage(i: nat, stage: Stage, clock: Time)
    | Finish(i: nat, completion: Completion, now: Time, clock: Time)
    | Retry(i: nat, next: Time, clock: Time)
    | GiveUp(i: nat, category: FailureCategory, now: Time, clock: Time)

  datatype World = World(
    jobs: Jobs,
    leases: seq<LeaseView>,      // every lease handed out, in its present view
    ids: set<JobId>,             // every job identifier drawn
    tokens: set<Token>,          // every token drawn
    expiries: map<JobId, nat>,   // how often a claim found the job's lease expired
    reports: map<JobId, nat>)    // how often a failure was recorded by Requeue or Fail

  ghost predicate Enabled(w: World, e: Event) {
    match e
    case Create(id, _) => id !in w.ids
    case Delete(id) => id in w.jobs
    case Claim(_, _, token, _) => token != "" && token !in w.tokens
    case _ => e.i < |w.leases|
  }

  function Count(m: map<JobId, nat>, id: JobId): nat {
    if id in m then m[id] else 0
  }

  predicate OnLease(e: Event) {
    !e.Create? && !e.Delete? && !e.Claim?
  }

  // The outcome of an operation through lease l.
  function Apply(jobs: Jobs, l: LeaseView, e: Event): Outcome
    requires OnLease(e)
  {
    match e
    case Renew(_, duration, clock) => RenewLease(jobs, l, duration, clock)
    case Stage(_, stage, clock) => SetStage(jobs, l, stage, clock)
    case Finish(_, completion, now, clock) => Complete(jobs, l, completion, now, clock)
    case Retry(_, next, clock) => Requeue(jobs, l, next, clock)
    case GiveUp(_, category, now, clock) => Fail(jobs, l, category, now, clock)
  }

  ghost function Step(w: World, e: Event): World
    requires Enabled(w, e)
  {
    if e.Create? then w.(jobs := w.jobs[e.id := NewJob(e.createdAt)], ids := w.ids + {e.id})
    else if e.Delete? then w.(jobs := w.jobs - {e.id})
    else if e.Claim? then
      var (jobs, lease) := ClaimNext(w.jobs, e.now, e.duration, e.token);
      w.(jobs := jobs, tokens := w.tokens + {e.token},
         leases := if lease.None? then w.leases else w.leases + [lease.value],
         expiries := CountExpiries(w, e.now))
    else
      var l := w.leases[e.i];
      var o := Apply(w.jobs, l, e);
      w.(jobs := o.jobs, leases := w.leases[e.i := o.lease],
         reports := if (e.Retry? || e.GiveUp?) && o.result == Done
                    then w.reports[l.job := Count(w.reports, l.job) + 1] else w.reports)
  }

  function CountExpiries(w: World, now: Time): map<JobId, nat> {
    map id | id in w.jobs ::
      Count(w.expiries, id) + if w.jobs[id].status.Processing? && Expired(w.jobs[id], now) then 1 else 0
  }

  ghost predicate Feasible(w: World, run: seq<Event>)
    decreases |run|
  {
    run == [] || (Enabled(w, run[0]) && Feasible(Step(w, run[0]), run[1..]))
  }

  ghost function Exec(w: World, run: seq<Event>): World
    requires Feasible(w, run)
    decreases |run|
  {
    if run == [] then w else Exec(Step(w, run[0]), run[1..])
  }

  const START := World(map[], [], {}, {}, map[], map[])

  // ------------------------------------------------------------- invariant

  // The lease still carries its job's token: it is the only kind of lease
  // whose operations can succeed, now or later.
  ghost predicate Live(w: World, i: nat) {
    i < |w.leases| && w.leases[i].job in w.jobs && w.jobs[w.leases[i].job].token == w.leases[i].token
  }

  ghost predicate LeasesOk(w: World) {
    && (forall i | 0 <= i < |w.leases| :: w.leases[i].token != "" && w.leases[i].token in w.tokens)
    && (forall i, j | 0 <= i < j < |w.leases| :: w.leases[i].token != w.leases[j].token)
    && (forall i: nat | Live(w, i) :: w.leases[i] == LeaseOf(w.leases[i].job, w.jobs[w.leases[i].job]))
  }

  ghost predicate Inv(w: World) {
    && JobsOk(w.jobs)
    && w.jobs.Keys <= w.ids
    && "" !in w.tokens
    && (forall id <- w.jobs :: w.jobs[id].token == "" || w.jobs[id].token in w.tokens)
    && LeasesOk(w)
  }

  lemma ClaimKeepsKeys(jobs: Jobs, now: Time, duration: int, token: Token)
    ensures var (after, lease) := ClaimNext(jobs, now, duration, token);
            && after.Keys == jobs.Keys
            && (lease.Some? ==> lease.value.job in jobs && lease.value.token == token)
  {
    var expired := ExpireAll(jobs, now);
    assert expired.Keys == jobs.Keys;
    var first := First(Due(expired, now));
    if first.Some? {
      assert first.value in Due(expired, now);
    }
  }

  // What a claim does to one job.
  lemma ClaimCases(jobs: Jobs, now: Time, duration: int, token: Token, id: JobId)
    requires id in jobs
    ensures var (after, lease) := ClaimNext(jobs, now, duration, token);
            && id in after
            && (if lease.Some? && lease.value.job == id
                then after[id] == ClaimJob(Expire(jobs[id], now), now, duration, token)
                     && Expire(jobs[id], now).status.Queued? && lease.value == LeaseOf(id, after[id])
                else after[id] == Expire(jobs[id], now))
  {
    ClaimKeepsKeys(jobs, now, duration, token);
  }

  lemma ClaimKeepsJobOk(j: Job, now: Time, duration: int, token: Token)
    requires JobOk(j) && token != ""
    ensures JobOk(Expire(j, now)) && Expire(j, now).token in {"", j.token}
    ensures Expire(j, now).status.Queued? ==> JobOk(ClaimJob(Expire(j, now), now, duration, token))
  {
  }

  // What an operation through a lease does: nothing, or one revision of the
  // job the lease is live on.
  lemma ApplyCases(jobs: Jobs, l: LeaseView, e: Event)
    requires JobsOk(jobs) && OnLease(e) && l.token != ""
    ensures var o := Apply(jobs, l, e);
            if o.result != Done then o.jobs == jobs && o.lease == l
            else
              && Holds(jobs, l) && l.job in o.jobs && o.jobs == jobs[l.job := o.jobs[l.job]]
              && jobs[l.job].status.Leased()
              && var next := o.jobs[l.job];
                 && JobOk(next) && next.version == jobs[l.job].version + 1
                 && o.lease.job == l.job && o.lease.token == l.token && o.lease.attempt == l.attempt
                 && next.attempts == jobs[l.job].attempts
                 && (next.token == "" || (next.token == l.token && (l.attempt == next.attempts ==> o.lease == LeaseOf(l.job, next))))
  {
    if l.job in jobs { assert JobOk(jobs[l.job]); }
  }

  lemma ClaimKeepsJobs(w: World, e: Event, id: JobId)
    requires Inv(w) && Enabled(w, e) && e.Claim? && id in w.jobs
    ensures var v := Step(w, e);
            && v.jobs.Keys == w.jobs.Keys
            && JobOk(v.jobs[id]) && v.jobs[id].token in {"", w.jobs[id].token, e.token}
            && (v.jobs[id].token != e.token ==> v.jobs[id] == Expire(w.jobs[id], e.now))
  {
    ClaimCases(w.jobs, e.now, e.duration, e.token, id);
    ClaimKeepsJobOk(w.jobs[id], e.now, e.duration, e.token);
  }

  lemma ClaimKeepsLeases(w: World, e: Event, i: nat)
    requires Inv(w) && Enabled(w, e) && e.Claim?
    requires Live(Step(w, e), i)
    ensures var v := Step(w, e); v.leases[i] == LeaseOf(v.leases[i].job, v.jobs[v.leases[i].job])
    ensures i < |w.leases| ==> Live(w, i) && Step(w, e).jobs[w.leases[i].job] == w.jobs[w.leases[i].job]
  {
    var v := Step(w, e);
    var id := v.leases[i].job;
    ClaimKeepsKeys(w.jobs, e.now, e.duration, e.token);
    if i < |w.leases| {
      ClaimKeepsJobs(w, e, id);
    } else {
      ClaimCases(w.jobs, e.now, e.duration, e.token, id);
    }
  }

  lemma ClaimDrawsToken(w: World, e: Event)
    requires Inv(w) && Enabled(w, e) && e.Claim?
    ensures var v := Step(w, e);
            && (forall i | 0 <= i < |v.leases| :: v.leases[i].token != "" && v.leases[i].token in v.tokens)
            && (forall i, j | 0 <= i < j < |v.leases| :: v.leases[i].token != v.leases[j].token)
  {
    ClaimKeepsKeys(w.jobs, e.now, e.duration, e.token);
  }

  lemma ClaimStepKeepsInv(w: World, e: Event)
    requires Inv(w) && Enabled(w, e) && e.Claim?
    ensures Inv(Step(w, e))
  {
    var v := Step(w, e);
    ClaimKeepsKeys(w.jobs, e.now, e.duration, e.token);
    assert JobsOk(v.jobs) && forall id <- v.jobs :: v.jobs[id].token == "" || v.jobs[id].token in v.tokens by {
      forall id <- v.jobs
        ensures JobOk(v.jobs[id]) && v.jobs[id].token in {"", w.jobs[id].token, e.token}
      {
        ClaimKeepsJobs(w, e, id);
      }
    }
    assert LeasesOk(v) by {
      ClaimDrawsToken(w, e);
      forall i: nat | Live(v, i)
        ensures v.leases[i] == LeaseOf(v.leases[i].job, v.jobs[v.leases[i].job])
      {
        ClaimKeepsLeases(w, e, i);
      }
    }
  }

  lemma LeaseStepKeepsInv(w: World, e: Event)
    requires Inv(w) && Enabled(w, e) && OnLease(e)
    ensures Inv(Step(w, e))
  {
    ApplyCases(w.jobs, w.leases[e.i], e);
    var v := Step(w, e);
    forall i: nat | Live(v, i)
      ensures v.leases[i] == LeaseOf(v.leases[i].job, v.jobs[v.leases[i].job])
    {
      assert Live(w, i);
    }
  }

  lemma {:induction false} StepKeepsInv(w: World, e: Event)
    requires Inv(w) && Enabled(w, e)
    ensures Inv(Step(w, e))
  {
    if e.Claim? {
      ClaimStepKeepsInv(w, e);
    } else if OnLease(e) {
      LeaseStepKeepsInv(w, e);
    } else {
      var v := Step(w, e);
      forall i: nat | Live(v, i)
        ensures v.leases[i] == LeaseOf(v.leases[i].job, v.jobs[v.leases[i].job])
      {
        assert Live(w, i);
      }
    }
  }

  lemma {:induction false} RunKeepsInv(w: World, run: seq<Event>)
    requires Inv(w) && Feasible(w, run)
    ensures Inv(Exec(w, run))
    decreases |run|
  {
    if run != [] {
      StepKeepsInv(w, run[0]);
      RunKeepsInv(Step(w, run[0]), run[1..]);
    }
  }

  // ------------------------------------------------------------ fencing

  // At most one lease per job is live.
  lemma OneLiveLease(w: World, i: nat, j: nat)
    requires Inv(w) && Live(w, i) && Live(w, j) && w.leases[i].job == w.leases[j].job
    ensures i == j
  {
  }

  // A lease is live exactly when some operation through it can still succeed.
  lemma LiveMeansUsable(w: World, i: nat)
    requires Inv(w) && i < |w.leases|
    ensures Live(w, i) <==> exists e: Event :: OnLease(e) && Apply(w.jobs, w.leases[i], e).result == Done
  {
    if Live(w, i) {
      assert JobOk(w.jobs[w.leases[i].job]);
      assert Apply(w.jobs, w.leases[i], Renew(i, 0, 0)).result == Done;
    }
    forall e: Event | OnLease(e) && Apply(w.jobs, w.leases[i], e).result == Done
      ensures Live(w, i)
    {
      ApplyCases(w.jobs, w.leases[i], e);
    }
  }

  // How a lease that is not live is refused: the store checks the arguments
  // of SetStage and Complete before it looks at the lease.
  function Refusal(e: Event): Result
    requires OnLease(e)
  {
    if e.Stage? && !e.stage.Valid() then InvalidStage
    else if e.Finish? && Incompletable(e.completion) then Incomplete
    else LeaseLost
  }

  lemma {:induction false} StepStaysLost(w: World, e: Event, i: nat)
    requires Inv(w) && Enabled(w, e) && i < |w.leases|
    ensures i < |Step(w, e).leases|
    ensures Live(Step(w, e), i) ==> Live(w, i)
    ensures Live(Step(w, e), i) ==>
      var l, m := w.leases[i], Step(w, e).leases[i];
      l.job == m.job && l.token == m.token && l.attempt == m.attempt
  {
    if e.Claim? {
      if Live(Step(w, e), i) { ClaimKeepsLeases(w, e, i); }
    } else if OnLease(e) {
      ApplyCases(w.jobs, w.leases[e.i], e);
    }
  }

  // A superseded or finished lease stays lost in every continuation, and every
  // operation through it is refused without changing the store.
  lemma {:induction false} LostForGood(w: World, run: seq<Event>, i: nat, e: Event)
    requires Inv(w) && Feasible(w, run) && i < |w.leases| && !Live(w, i)
    requires OnLease(e) && e.i == i
    ensures var v := Exec(w, run);
            && i < |v.leases| && !Live(v, i)
            && Apply(v.jobs, v.leases[i], e) == Outcome(v.jobs, v.leases[i], Refusal(e))
    decreases |run|
  {
    if run == [] {
      ApplyCases(w.jobs, w.leases[i], e);
    } else {
      StepKeepsInv(w, run[0]);
      StepStaysLost(w, run[0], i);
      LostForGood(Step(w, run[0]), run[1..], i, e);
    }
  }

  // ----------------------------------------------------------- revisions

  // One step on one job: untouched, or a higher version, or gone.
  lemma StepRaisesVersion(w: World, e: Event, id: JobId)
    requires Inv(w) && Enabled(w, e) && id in w.jobs
    ensures var v := Step(w, e);
            id in v.jobs ==>
              && (v.jobs[id] == w.jobs[id] || v.jobs[id].version > w.jobs[id].version)
              && (w.jobs[id].status.Terminal() ==> v.jobs[id] == w.jobs[id])
  {
    assert JobOk(w.jobs[id]);
    if e.Claim? {
      ClaimCases(w.jobs, e.now, e.duration, e.token, id);
    } else if OnLease(e) {
      ApplyCases(w.jobs, w.leases[e.i], e);
    }
  }

  lemma StepKeepsGone(w: World, e: Event, id: JobId)
    requires Inv(w) && Enabled(w, e) && id in w.ids && id !in w.jobs
    ensures id !in Step(w, e).jobs && id in Step(w, e).ids
  {
    if e.Claim? {
      ClaimKeepsKeys(w.jobs, e.now, e.duration, e.token);
    } else if OnLease(e) {
      ApplyCases(w.jobs, w.leases[e.i], e);
    }
  }

  lemma {:induction false} GoneForGood(w: World, run: seq<Event>, id: JobId)
    requires Inv(w) && Feasible(w, run) && id in w.ids && id !in w.jobs
    ensures id !in Exec(w, run).jobs
    decreases |run|
  {
    if run != [] {
      StepKeepsInv(w, run[0]);
      StepKeepsGone(w, run[0], id);
      GoneForGood(Step(w, run[0]), run[1..], id);
    }
  }

  // A version names one state of a job: over any run versions never decrease,
  // and a job seen twice with the same version is the same job unchanged. A
  // terminal job never changes again.
  lemma {:induction false} VersionsNameStates(w: World, run: seq<Event>, id: JobId)
    requires Inv(w) && Feasible(w, run) && id in w.jobs
    ensures var v := Exec(w, run);
            id in v.jobs ==>
              && v.jobs[id].version >= w.jobs[id].version
              && (v.jobs[id].version == w.jobs[id].version ==> v.jobs[id] == w.jobs[id])
              && (w.jobs[id].status.Terminal() ==> v.jobs[id] == w.jobs[id])
    decreases |run|
  {
    if run != [] {
      var v := Step(w, run[0]);
      StepKeepsInv(w, run[0]);
      StepRaisesVersion(w, run[0], id);
      if id in v.jobs {
        VersionsNameStates(v, run[1..], id);
      } else {
        StepKeepsIds(w, run[0], id);
        GoneForGood(v, run[1..], id);
      }
    }
  }

  lemma StepKeepsIds(w: World, e: Event, id: JobId)
    requires Enabled(w, e) && id in w.ids
    ensures id in Step(w, e).ids
  {
  }

  // -------------------------------------------------------- stage traces

  // The stages shown by the job of lease i, one per state of the run.
  ghost function Trace(w: World, run: seq<Event>, i: nat): seq<Stage>
    requires Feasible(w, run) && i < |w.leases|
    decreases |run|
  {
    var shown := if w.leases[i].job in w.jobs then w.jobs[w.leases[i].job].stage else NoStage;
    if run == [] then [shown]
    else
      var v := Step(w, run[0]);
      [shown] + if i < |v.leases| then Trace(v, run[1..], i) else []
  }

  lemma StepMovesLegally(w: World, e: Event, i: nat)
    requires Inv(w) && Enabled(w, e) && Live(w, i) && Live(Step(w, e), i)
    requires w.jobs[w.leases[i].job].status.Processing?
    ensures var v := Step(w, e);
            && v.leases[i].job == w.leases[i].job && v.jobs[w.leases[i].job].status.Processing?
            && w.jobs[w.leases[i].job].stage.CanTransitionTo(v.jobs[w.leases[i].job].stage)
  {
    var id := w.leases[i].job;
    assert JobOk(w.jobs[id]);
    if e.Claim? {
      ClaimKeepsLeases(w, e, i);
    } else if OnLease(e) {
      ApplyCases(w.jobs, w.leases[e.i], e);
    }
  }

  lemma StillLive(w: World, run: seq<Event>, i: nat)
    requires Inv(w) && Feasible(w, run) && run != [] && i < |w.leases| && Live(Exec(w, run), i)
    ensures Inv(Step(w, run[0])) && Live(Step(w, run[0]), i)
  {
    StepKeepsInv(w, run[0]);
    StepStaysLost(w, run[0], i);
    if !Live(Step(w, run[0]), i) {
      LostForGood(Step(w, run[0]), run[1..], i, Renew(i, 0, 0));
    }
  }

  lemma LegalAfter(stage: Stage, trace: seq<Stage>)
    requires trace != [] && Legal(trace) && stage.CanTransitionTo(trace[0])
    ensures Legal([stage] + trace)
  {
    assert ([stage] + trace)[1..] == trace;
  }

  // While one claim lasts, the stages shown follow the graph.
  lemma {:induction false} ClaimTraceLegal(w: World, run: seq<Event>, i: nat)
    requires Inv(w) && Feasible(w, run) && Live(w, i) && Live(Exec(w, run), i)
    requires w.jobs[w.leases[i].job].status.Processing?
    ensures var t, v, id := Trace(w, run, i), Exec(w, run), w.leases[i].job;
            && v.leases[i].job == id && v.jobs[id].status.Processing?
            && t != [] && Legal(t) && t[0] == w.jobs[id].stage && t[|t| - 1] == v.jobs[id].stage
    decreases |run|
  {
    if run == [] {
      assert JobOk(w.jobs[w.leases[i].job]);
    } else {
      var v := Step(w, run[0]);
      StillLive(w, run, i);
      StepMovesLegally(w, run[0], i);
      ClaimTraceLegal(v, run[1..], i);
      LegalAfter(w.jobs[w.leases[i].job].stage, Trace(v, run[1..], i));
    }
  }

  // From a claim to a successful completion through its lease the job takes,
  // after its last return to fetching, the full route or the reviewed one.
  lemma {:induction false} CompletedClaimRoute(w: World, claim: Event, run: seq<Event>, finish: Event)
    requires Inv(w) && Enabled(w, claim) && claim.Claim? && Feasible(Step(w, claim), run)
    requires |Step(w, claim).leases| == |w.leases| + 1
    requires finish.Finish? && finish.i == |w.leases|
    requires var v := Exec(Step(w, claim), run);
             finish.i < |v.leases| && Apply(v.jobs, v.leases[finish.i], finish).result == Done
    ensures Squeeze(FromLastFetch(Trace(Step(w, claim), run, finish.i))) in {REVIEWED_ROUTE, FULL_ROUTE}
  {
    var start, i := Step(w, claim), finish.i;
    var v := Exec(start, run);
    NewLeaseFetches(w, claim);
    StepKeepsInv(w, claim);
    RunKeepsInv(start, run);
    OnlyPersistingCompletes(v.jobs, v.leases[i], finish);
    assert Live(v, i);
    ClaimTraceLegal(start, run, i);
    RouteToPersisting(Trace(start, run, i));
  }

  lemma OnlyPersistingCompletes(jobs: Jobs, l: LeaseView, finish: Event)
    requires finish.Finish? && Apply(jobs, l, finish).result == Done
    ensures Holds(jobs, l) && jobs[l.job].status.Processing? && jobs[l.job].stage == Persisting
  {
  }

  // The lease of a fresh claim is live, on a job that is fetching.
  lemma NewLeaseFetches(w: World, claim: Event)
    requires Inv(w) && Enabled(w, claim) && claim.Claim?
    requires |Step(w, claim).leases| == |w.leases| + 1
    ensures var v, i := Step(w, claim), |w.leases|;
            Live(v, i) && v.jobs[v.leases[i].job].status.Processing? && v.jobs[v.leases[i].job].stage == Fetching
  {
    ClaimKeepsKeys(w.jobs, claim.now, claim.duration, claim.token);
    ClaimCases(w.jobs, claim.now, claim.duration, claim.token, Step(w, claim).leases[|w.leases|].job);
  }

  // ------------------------------------------------------ bounded attempts

  // The worker records a retryable failure by Requeue only while the attempt
  // number of its lease is below the limit, and otherwise by Fail.
  ghost predicate Policed(w: World, e: Event, maxAttempts: nat) {
    e.Retry? && e.i < |w.leases| ==> w.leases[e.i].attempt < maxAttempts
  }

  ghost predicate PolicedRun(w: World, run: seq<Event>, maxAttempts: nat)
    requires Feasible(w, run)
    decreases |run|
  {
    run == [] || (Policed(w, run[0], maxAttempts) && PolicedRun(Step(w, run[0]), run[1..], maxAttempts))
  }

  // Every attempt but the one under way ended in an expiry or in a report.
  ghost predicate AccountedJob(w: World, id: JobId, maxAttempts: nat)
    requires id in w.jobs
  {
    var j, lost, told := w.jobs[id], Count(w.expiries, id), Count(w.reports, id);
    && j.attempts <= maxAttempts + lost
    && (j.status.Queued? ==> j.attempts == lost + told && j.attempts < maxAttempts + lost)
    && (j.status.Processing? ==> j.attempts == lost + told + 1)
    && told <= maxAttempts && !j.status.Delivering?
  }

  ghost predicate Accounted(w: World, maxAttempts: nat) {
    forall id <- w.jobs :: AccountedJob(w, id, maxAttempts)
  }

  ghost predicate CountersKnown(w: World) {
    w.expiries.Keys <= w.ids && w.reports.Keys <= w.ids && forall l <- w.leases :: l.job in w.ids
  }

  lemma {:induction false} StepKeepsCounters(w: World, e: Event)
    requires Inv(w) && Enabled(w, e) && CountersKnown(w)
    ensures CountersKnown(Step(w, e))
  {
    if e.Claim? {
      ClaimKeepsKeys(w.jobs, e.now, e.duration, e.token);
    } else if OnLease(e) {
      ApplyCases(w.jobs, w.leases[e.i], e);
    }
  }

  lemma ClaimKeepsAccount(w: World, e: Event, maxAttempts: nat, id: JobId)
    requires Inv(w) && Enabled(w, e) && e.Claim? && id in w.jobs
    requires AccountedJob(w, id, maxAttempts) && maxAttempts > 0
    ensures id in Step(w, e).jobs && AccountedJob(Step(w, e), id, maxAttempts)
  {
    ClaimCases(w.jobs, e.now, e.duration, e.token, id);
    var lost := if w.jobs[id].status.Processing? && Expired(w.jobs[id], e.now) then 1 else 0;
    assert Count(Step(w, e).expiries, id) == Count(w.expiries, id) + lost;
    assert JobOk(w.jobs[id]);
  }

  lemma OperationKeepsAccount(w: World, e: Event, maxAttempts: nat, id: JobId)
    requires Inv(w) && Enabled(w, e) && OnLease(e) && Policed(w, e, maxAttempts) && id in w.jobs
    requires AccountedJob(w, id, maxAttempts)
    ensures id in Step(w, e).jobs && AccountedJob(Step(w, e), id, maxAttempts)
  {
    var l := w.leases[e.i];
    ApplyCases(w.jobs, l, e);
    if Apply(w.jobs, l, e).result == Done {
      assert Live(w, e.i);
    }
  }

  lemma {:induction false} StepKeepsAccount(w: World, e: Event, maxAttempts: nat)
    requires Inv(w) && Enabled(w, e) && CountersKnown(w) && Policed(w, e, maxAttempts)
    requires Accounted(w, maxAttempts) && maxAttempts > 0
    ensures Accounted(Step(w, e), maxAttempts)
  {
    if e.Claim? { ClaimKeepsKeys(w.jobs, e.now, e.duration, e.token); }
    if OnLease(e) { ApplyCases(w.jobs, w.leases[e.i], e); }
    forall id <- Step(w, e).jobs
      ensures AccountedJob(Step(w, e), id, maxAttempts)
    {
      if id in w.jobs { assert AccountedJob(w, id, maxAttempts); }
      if e.Claim? {
        ClaimKeepsAccount(w, e, maxAttempts, id);
      } else if OnLease(e) {
        OperationKeepsAccount(w, e, maxAttempts, id);
      }
    }
  }

  // In every run of workers a job is claimed at most maxAttempts times plus
  // the number of times its lease expired, and fails at most maxAttempts times.
  lemma {:induction false} AttemptsBounded(w: World, run: seq<Event>, maxAttempts: nat)
    requires Inv(w) && CountersKnown(w) && Feasible(w, run) && PolicedRun(w, run, maxAttempts)
    requires Accounted(w, maxAttempts) && maxAttempts > 0
    ensures Accounted(Exec(w, run), maxAttempts)
    decreases |run|
  {
    if run != [] {
      StepKeepsInv(w, run[0]);
      StepKeepsCounters(w, run[0]);
      StepKeepsAccount(w, run[0], maxAttempts);
      AttemptsBounded(Step(w, run[0]), run[1..], maxAttempts);
    }
  }

  // From an empty store: a job whose lease never expired is claimed at most
  // maxAttempts times, and is terminal once maxAttempts failures are recorded.
  lemma {:induction false} ReportedFailuresEnd(run: seq<Event>, maxAttempts: nat, id: JobId)
    requires Feasible(START, run) && PolicedRun(START, run, maxAttempts) && maxAttempts > 0
    requires var v := Exec(START, run); id in v.jobs && Count(v.expiries, id) == 0
    ensures var v := Exec(START, run);
            && v.jobs[id].attempts <= maxAttempts && Count(v.reports, id) <= maxAttempts
            && (Count(v.reports, id) == maxAttempts ==> v.jobs[id].status.Terminal())
  {
    AttemptsBounded(START, run, maxAttempts);
    assert AccountedJob(Exec(START, run), id, maxAttempts);
  }
}
