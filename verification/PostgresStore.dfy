/**
  The PostgreSQL job store: every transaction is one atomic change of the jobs
  table. A NULL column is None. Rows carry the delivery columns as well, because
  a claim first gives up expired deliveries.
*/
module PostgresStore {
  import opened Domain
  import opened ClaimQueue
  import opened JobStore

  datatype Row = Row(
    status: Status,
    stage: Option<Stage>,
    attempts: nat,
    createdAt: Time,
    nextAttemptAt: Time,
    version: nat,
    token: Option<Token>,
    expires: Option<Time>,
    failure: Option<FailureCategory>,
    completedAt: Option<Time>,
    hasPDF: bool,
    destination: Option<string>,
    pending: bool,
    paused: bool,
    retries: nat)

  type Rows = map<JobId, Row>

  datatype RowOutcome = RowOutcome(rows: Rows, lease: LeaseView, result: Result)

  // The CHECK constraints of the jobs table.
  predicate RowOk(r: Row) {
    && (r.status.Processing? <==> r.stage.Some?)
    && (r.stage.Some? ==> r.stage.value.Valid())
    && (r.token.None? <==> r.expires.None?)
    && (r.status.Leased() <==> r.token.Some? && r.expires.Some?)
    && (r.status.Failed? || r.status.DeliveryFailed? ==> r.failure.Some?)
    && (r.completedAt.Some? ==> r.status.Terminal())
    && r.version > 0
  }

  ghost predicate RowsOk(rows: Rows) {
    forall id <- rows :: RowOk(rows[id])
  }

  function NewRow(createdAt: Time): Row {
    Row(Queued, None, 0, createdAt, createdAt, 1, None, None, None, None, false, None, false, false, 0)
  }

  // A zero instant passed by the caller is replaced by the store's clock.
  function Instant(t: Time, clock: Time): Time {
    if t == NO_TIME then clock else t
  }

  // ---------------------------------------------------------------- claim

  predicate Lapsed(r: Row, now: Time) {
    r.expires.Some? && r.expires.value <= now
  }

  function ExpireDelivery(r: Row, now: Time): Row {
    if r.status.Delivering? && Lapsed(r, now) then
      r.(status := DeliveryFailed, pending := false, failure := Some(DeliveryTimeout),
         token := None, expires := None, completedAt := Some(now), version := r.version + 1)
    else r
  }

  function ExpireDeliveries(rows: Rows, now: Time): Rows {
    map id | id in rows :: ExpireDelivery(rows[id], now)
  }

  function ReclaimRow(r: Row, now: Time): Row {
    if r.status.Processing? && Lapsed(r, now) then
      r.(status := Queued, stage := None, token := None, expires := None, failure := None,
         completedAt := None, nextAttemptAt := now, version := r.version + 1)
    else r
  }

  function Reclaim(rows: Rows, now: Time): Rows {
    map id | id in rows :: ReclaimRow(rows[id], now)
  }

  function DueRows(rows: Rows, now: Time): Queue {
    map id | id in rows && rows[id].status.Queued? && rows[id].nextAttemptAt <= now :: rows[id].createdAt
  }

  function ClaimRow(r: Row, now: Time, duration: int, token: Token): Row {
    r.(status := Processing, stage := Some(Fetching), attempts := r.attempts + 1,
       token := Some(token), expires := Some(now + LeaseDuration(duration)), version := r.version + 1)
  }

  function Or<T>(o: Option<T>, default: T): T {
    if o.Some? then o.value else default
  }

  function RowLease(id: JobId, r: Row): LeaseView {
    LeaseView(id, Or(r.token, ""), r.attempts, r.version, Or(r.expires, NO_TIME), Or(r.stage, NoStage))
  }

  ghost function ClaimNextRow(rows: Rows, requested: Time, duration: int, token: Token, clock: Time)
    : (Rows, Option<LeaseView>)
  {
    var now := Instant(requested, clock);
    var ready := Reclaim(ExpireDeliveries(rows, now), now);
    match First(DueRows(ready, now))
    case None => (ready, None)
    case Some(id) =>
      var claimed := ClaimRow(ready[id], now, duration, token);
      (ready[id := claimed], Some(RowLease(id, claimed)))
  }

  // ------------------------------------------------- operations on a lease

  function Refused(rows: Rows, l: LeaseView, result: Result): RowOutcome {
    RowOutcome(rows, l, result)
  }

  // The condition every guarded UPDATE repeats.
  predicate Guard(rows: Rows, l: LeaseView, clock: Time) {
    && l.job in rows
    && rows[l.job].token == Some(l.token)
    && rows[l.job].version == l.version
    && rows[l.job].expires.Some? && rows[l.job].expires.value > clock
  }

  // Lease durations reach the database in whole microseconds, at least one.
  function WholeMicros(duration: int): nat {
    var micros := LeaseDuration(duration) / 1000;
    1000 * if micros == 0 then 1 else micros
  }

  function RenewRow(rows: Rows, l: LeaseView, duration: int, clock: Time): RowOutcome {
    if !Guard(rows, l, clock) || !rows[l.job].status.Leased() then Refused(rows, l, LeaseLost)
    else
      var r := rows[l.job];
      var next := r.(expires := Some(Max(r.expires.value, clock) + WholeMicros(duration)), version := r.version + 1);
      RowOutcome(rows[l.job := next], l.Observe(next.version, next.expires.value, l.stage), Done)
  }

  // The current row is read into plain strings and instants: a NULL token or
  // expiry is a read error, not a lost lease.
  function StageRow(rows: Rows, l: LeaseView, stage: Stage, clock: Time): RowOutcome {
    if !stage.Valid() then Refused(rows, l, InvalidStage)
    else if l.job !in rows then Refused(rows, l, LeaseLost)
    else
      var r := rows[l.job];
      if r.token.None? || r.expires.None? then Refused(rows, l, StorageFailure)
      else if !r.status.Processing? || !Guard(rows, l, clock) then Refused(rows, l, LeaseLost)
      else if !Or(r.stage, NoStage).CanTransitionTo(stage) then Refused(rows, l, InvalidStage)
      else
        var next := r.(stage := Some(stage), version := r.version + 1);
        RowOutcome(rows[l.job := next], l.Observe(next.version, r.expires.value, stage), Done)
  }

  // Here the stage is read into a plain string too.
  function CompleteRow(rows: Rows, l: LeaseView, c: Completion, requested: Time, clock: Time,
      configured: Option<string>): RowOutcome {
    if Incompletable(c) then Refused(rows, l, Incomplete)
    else if l.job !in rows then Refused(rows, l, LeaseLost)
    else
      var r := rows[l.job];
      if r.stage.None? || r.token.None? || r.expires.None? then Refused(rows, l, StorageFailure)
      else if !r.status.Processing? || !Guard(rows, l, clock) then Refused(rows, l, LeaseLost)
      else if r.stage.value != Persisting then Refused(rows, l, InvalidStage)
      else
        var destination := if r.destination.Some? then r.destination else configured;
        var next := r.(status := Ready, stage := None, hasPDF := true,
                       destination := destination, pending := destination.Some?,
                       token := None, expires := None,
                       completedAt := Some(Instant(requested, clock)), version := r.version + 1);
        RowOutcome(rows[l.job := next], l.Observe(next.version, NO_TIME, NoStage), Done)
  }

  function RequeueRow(rows: Rows, l: LeaseView, requested: Time, clock: Time): RowOutcome {
    if !Guard(rows, l, clock) || !rows[l.job].status.Leased() then Refused(rows, l, LeaseLost)
    else
      var r := rows[l.job];
      var next := r.(status := Queued, stage := None, token := None, expires := None, failure := None,
                     nextAttemptAt := Instant(requested, clock), version := r.version + 1);
      RowOutcome(rows[l.job := next], l.Observe(l.version + 1, NO_TIME, NoStage), Done)
  }

  function FailRow(rows: Rows, l: LeaseView, category: FailureCategory, requested: Time, clock: Time): RowOutcome {
    if !Guard(rows, l, clock) || !rows[l.job].status.Leased() then Refused(rows, l, LeaseLost)
    else
      var r := rows[l.job];
      var now := Instant(requested, clock);
      var next := r.(status := Failed, stage := None, failure := Some(category.Normalized()),
                     token := None, expires := None, completedAt := Some(now), nextAttemptAt := now,
                     version := r.version + 1);
      RowOutcome(rows[l.job := next], l.Observe(l.version + 1, NO_TIME, NoStage), Done)
  }
}

/** The transactions of the PostgreSQL store, each run to its commit. */
module PostgresTransactions {
  import opened Domain
  import opened ClaimQueue
  import opened JobStore
  import opened Leases
  import opened PostgresStore
  import opened Smtp
  import opened DeliveryTable

  // A row a worker may take now: queued and due, or left by a worker whose
  // lease has expired.
  predicate Ripe(r: Row, now: Time) {
    || (r.status.Queued? && r.nextAttemptAt <= now)
    || (r.status.Processing? && r.expires.Some? && r.expires.value <= now)
  }

  lemma RipeIsDue(rows: Rows, now: Time, id: JobId)
    ensures id in DueRows(Reclaim(ExpireDeliveries(rows, now), now), now) <==> id in rows && Ripe(rows[id], now)
  {
  }

  ghost predicate ClaimedFor(rows: Rows, claimed: Rows, l: LeaseView, now: Time, duration: int, token: Token) {
    && l.job in rows && l.job in claimed && Ripe(rows[l.job], now)
    && var r := claimed[l.job];
       && r.status.Processing? && r.stage == Some(Fetching) && r.attempts == rows[l.job].attempts + 1
       && r.token == Some(token) && l.token == token
       && r.expires == Some(now + (if duration <= 0 then 300_000_000_000 else duration)) == Some(l.expiresAt)
  }

  // A claim takes a row exactly if one is ripe, and leases it for the requested
  // time, or for five minutes.
  lemma ClaimTakes(rows: Rows, requested: Time, duration: int, token: Token, clock: Time)
    ensures var (claimed, view) := ClaimNextRow(rows, requested, duration, token, clock);
            var now := if requested == 0 then clock else requested;
            if view.None? then forall id <- rows :: !Ripe(rows[id], now)
            else ClaimedFor(rows, claimed, view.value, now, duration, token)
  {
    var now := if requested == 0 then clock else requested;
    var due := DueRows(Reclaim(ExpireDeliveries(rows, now), now), now);
    var view := ClaimNextRow(rows, requested, duration, token, clock).1;
    if view.None? {
      forall id <- rows ensures !Ripe(rows[id], now) { RipeIsDue(rows, now, id); assert id !in due; }
    } else {
      RipeIsDue(rows, now, view.value.job);
    }
  }

  // A lease with the current token and revision that has not expired.
  predicate Live(rows: Rows, l: LeaseView, clock: Time) {
    && l.job in rows && rows[l.job].token == Some(l.token) && rows[l.job].version == l.version
    && rows[l.job].expires.Some? && rows[l.job].expires.value > clock
  }

  // An email that is to be sent now.
  predicate Mailable(r: Row, now: Time) {
    r.status.Ready? && r.pending && !r.paused && r.nextAttemptAt <= now
  }

  // An email whose claim has expired.
  predicate GivenUp(r: Row, now: Time) {
    r.status.Delivering? && r.expires.Some? && r.expires.value <= now
  }

  // The claim with this token is the one the row is being delivered under.
  predicate Claimed(rows: Rows, id: JobId, token: Token, now: Time) {
    && id in rows && rows[id].status.Delivering? && rows[id].token == Some(token)
    && rows[id].expires.Some? && rows[id].expires.value > now
  }

  // What each outcome of a conversation makes of the row.
  predicate Reported(before: Row, after: Row, outcome: EmailOutcome, now: Time) {
    && after == before.(status := after.status, pending := after.pending, failure := after.failure,
                        token := None, expires := None, completedAt := Some(now),
                        nextAttemptAt := now + before.retries * 30_000_000_000, version := before.version + 1)
    && match outcome
       case Accepted => after.status.Delivered? && after.failure.None? && !after.pending
       case Rejected => after.status.DeliveryFailed? && after.failure == Some(DeliveryRejected) && !after.pending
       case TransientFailure =>
         if before.retries < 3 then after.status.Ready? && after.pending && after.failure.None?
         else after.status.DeliveryFailed? && after.failure == Some(DeliveryTimeout) && !after.pending
       case Uncertain => after.status.DeliveryFailed? && after.failure == Some(DeliveryTimeout) && !after.pending
       case OtherOutcome(_) => false
  }

  predicate LeaseHeld(r: Row) {
    r.status.Processing? || r.status.Delivering?
  }

  class Store {
    var rows: Rows
    const configured: Option<string>      // the default delivery destination

    constructor (configured: Option<string>)
      ensures rows == map[] && this.configured == configured
    {
      rows, this.configured := map[], configured;
    }

    method ClaimNext(requested: Time, duration: int, token: Token, clock: Time) returns (lease: Lease?)
      modifies this
      ensures lease != null ==> fresh(lease)
      ensures var (claimed, view) := ClaimNextRow(old(rows), requested, duration, token, clock);
              rows == claimed && (if lease == null then None else Some(lease.View())) == view
      ensures var now := if requested == 0 then clock else requested;
              if lease == null then forall id <- old(rows) :: !Ripe(old(rows)[id], now)
              else ClaimedFor(old(rows), rows, lease.View(), now, duration, token)
    {
      ClaimTakes(rows, requested, duration, token, clock);
      var now := if requested == NO_TIME then clock else requested;
      var table := ExpireDeliveries(rows, now);
      table := Reclaim(table, now);
      var first := SelectFirst(DueRows(table, now));
      if first.None? {
        rows := table;
        return null;
      }
      var id := first.value;
      var row := table[id];
      row := row.(status := Processing, stage := Some(Fetching), attempts := row.attempts + 1);
      row := row.(token := Some(token), expires := Some(now + LeaseDuration(duration)), version := row.version + 1);
      rows := table[id := row];
      lease := new Lease(RowLease(id, row));
    }

    method RenewLease(lease: Lease?, duration: int, clock: Time) returns (result: Result)
      modifies this, lease
      ensures lease == null ==> result == LeaseLost && rows == old(rows)
      ensures lease != null ==>
        RowOutcome(rows, lease.View(), result) == RenewRow(old(rows), old(lease.View()), duration, clock)
      ensures result == Done <==>
                lease != null && Live(old(rows), old(lease.View()), clock) && LeaseHeld(old(rows)[lease.job])
      ensures result == Done ==>
                var r := old(rows)[lease.job];
                var more := if duration <= 0 then 300_000_000_000 else if duration < 1000 then 1000 else duration - duration % 1000;
                rows == old(rows)[lease.job := r.(expires := Some(r.expires.value + more), version := r.version + 1)]
    {
      if lease == null { return LeaseLost; }
      var micros := LeaseDuration(duration) / 1000;
      if micros <= 0 {
        micros := 1;
      }
      if !Guard(rows, lease.View(), clock) || !rows[lease.job].status.Leased() { return LeaseLost; }
      var row := rows[lease.job];
      var base := if row.expires.value < clock then clock else row.expires.value;
      row := row.(expires := Some(base + 1000 * micros), version := row.version + 1);
      rows := rows[lease.job := row];
      lease.Observe(row.version, row.expires.value, lease.stage);
      return Done;
    }

    method SetStage(lease: Lease?, stage: Stage, clock: Time) returns (result: Result)
      modifies this, lease
      ensures lease == null ==> result == (if stage.Valid() then LeaseLost else InvalidStage) && rows == old(rows)
      ensures lease != null ==>
        RowOutcome(rows, lease.View(), result) == StageRow(old(rows), old(lease.View()), stage, clock)
      ensures result == Done <==>
                && lease != null && Live(old(rows), old(lease.View()), clock) && old(rows)[lease.job].status.Processing?
                && stage.Valid() && (if old(rows)[lease.job].stage.Some? then old(rows)[lease.job].stage.value else NoStage).CanTransitionTo(stage)
      ensures result == Done ==>
                var r := old(rows)[lease.job];
                rows == old(rows)[lease.job := r.(stage := Some(stage), version := r.version + 1)]
    {
      if !stage.Valid() { return InvalidStage; }
      if lease == null { return LeaseLost; }
      if lease.job !in rows { return LeaseLost; }
      var row := rows[lease.job];
      if row.token.None? || row.expires.None? { return StorageFailure; }
      if !row.status.Processing? || row.token.value != lease.token || row.version != lease.version
         || row.expires.value <= clock {
        return LeaseLost;
      }
      var current := if row.stage.Some? then row.stage.value else NoStage;
      if !current.CanTransitionTo(stage) { return InvalidStage; }
      row := row.(stage := Some(stage), version := row.version + 1);
      rows := rows[lease.job := row];
      lease.Observe(row.version, row.expires.value, stage);
      return Done;
    }

    method Complete(lease: Lease?, completion: Completion, requested: Time, clock: Time) returns (result: Result)
      modifies this, lease
      ensures lease == null ==> result == (if Incompletable(completion) then Incomplete else LeaseLost) && rows == old(rows)
      ensures lease != null ==>
        RowOutcome(rows, lease.View(), result) == CompleteRow(old(rows), old(lease.View()), completion, requested, clock, configured)
      ensures result == Done <==>
                && completion.contentId != "" && completion.artifact.available && completion.artifact.byteSize > 0
                && lease != null && Live(old(rows), old(lease.View()), clock)
                && old(rows)[lease.job].status.Processing? && old(rows)[lease.job].stage == Some(Persisting)
      ensures result == Done ==>
                var r := old(rows)[lease.job];
                rows == old(rows)[lease.job := r.(status := Ready, stage := None, hasPDF := true,
                  destination := if r.destination.Some? then r.destination else configured,
                  pending := r.destination.Some? || configured.Some?,
                  token := None, expires := None, completedAt := Some(if requested == 0 then clock else requested),
                  version := r.version + 1)]
    {
      if completion.contentId == "" || !completion.artifact.available || completion.artifact.byteSize <= 0 {
        return Incomplete;
      }
      if lease == null { return LeaseLost; }
      if lease.job !in rows { return LeaseLost; }
      var row := rows[lease.job];
      if row.stage.None? || row.token.None? || row.expires.None? { return StorageFailure; }
      if !row.status.Processing? || row.token.value != lease.token || row.version != lease.version
         || row.expires.value <= clock {
        return LeaseLost;
      }
      if row.stage.value != Persisting { return InvalidStage; }
      if row.destination.None? {
        row := row.(destination := configured);
      }
      row := row.(status := Ready, stage := None, hasPDF := true, pending := row.destination.Some?);
      row := row.(token := None, expires := None, completedAt := Some(Instant(requested, clock)),
                  version := row.version + 1);
      rows := rows[lease.job := row];
      lease.Observe(row.version, NO_TIME, NoStage);
      return Done;
    }

    method Requeue(lease: Lease?, requested: Time, clock: Time) returns (result: Result)
      modifies this, lease
      ensures lease == null ==> result == LeaseLost && rows == old(rows)
      ensures lease != null ==>
        RowOutcome(rows, lease.View(), result) == RequeueRow(old(rows), old(lease.View()), requested, clock)
      ensures result == Done <==>
                lease != null && Live(old(rows), old(lease.View()), clock) && LeaseHeld(old(rows)[lease.job])
      ensures result == Done ==>
                var r := old(rows)[lease.job];
                rows == old(rows)[lease.job := r.(status := Queued, stage := None, token := None, expires := None,
                  failure := None, nextAttemptAt := if requested == 0 then clock else requested,
                  version := r.version + 1)]
    {
      if lease == null { return LeaseLost; }
      var next := if requested == NO_TIME then clock else requested;
      if !Guard(rows, lease.View(), clock) || !rows[lease.job].status.Leased() { return LeaseLost; }
      var row := rows[lease.job];
      row := row.(status := Queued, stage := None, token := None, expires := None);
      row := row.(failure := None, nextAttemptAt := next, version := row.version + 1);
      rows := rows[lease.job := row];
      lease.Observe(lease.version + 1, NO_TIME, NoStage);
      return Done;
    }

    method Fail(lease: Lease?, category: FailureCategory, requested: Time, clock: Time) returns (result: Result)
      modifies this, lease
      ensures lease == null ==> result == LeaseLost && rows == old(rows)
      ensures lease != null ==>
        RowOutcome(rows, lease.View(), result) == FailRow(old(rows), old(lease.View()), category, requested, clock)
      ensures result == Done <==>
                lease != null && Live(old(rows), old(lease.View()), clock) && LeaseHeld(old(rows)[lease.job])
      ensures result == Done ==>
                var r := old(rows)[lease.job];
                var now := if requested == 0 then clock else requested;
                rows == old(rows)[lease.job := r.(status := Failed, stage := None, token := None, expires := None,
                  failure := Some(if category.OtherCategory? then InternalError else category),
                  completedAt := Some(now), nextAttemptAt := now, version := r.version + 1)]
    {
      if lease == null { return LeaseLost; }
      var now := if requested == NO_TIME then clock else requested;
      if !Guard(rows, lease.View(), clock) || !rows[lease.job].status.Leased() { return LeaseLost; }
      var row := rows[lease.job];
      row := row.(status := Failed, stage := None, failure := Some(category.Normalized()));
      row := row.(token := None, expires := None, completedAt := Some(now), nextAttemptAt := now,
                  version := row.version + 1);
      rows := rows[lease.job := row];
      lease.Observe(lease.version + 1, NO_TIME, NoStage);
      return Done;
    }

    // Gives up expired deliveries, then leases the next email to send. A row
    // that lost its PDF aborts the transaction.
    method ClaimDelivery(now: Time, duration: nat, token: Token) returns (claim: Option<JobId>, ok: bool)
      modifies this
      ensures claim.Some? ==> ok && IsNextEmail(ExpireDeliveries(old(rows), now), now, claim.value)
      ensures claim.Some? ==> old(rows)[claim.value].hasPDF
      ensures claim.Some? ==> rows == ClaimEmail(old(rows), claim.value, now, duration, token)
      ensures ok && claim.None? ==> rows == ExpireDeliveries(old(rows), now)
      ensures ok && claim.None? ==> forall id <- rows :: !Sendable(rows[id], now)
      ensures !ok ==> rows == old(rows)
      ensures !ok ==> exists id :: IsNextEmail(ExpireDeliveries(rows, now), now, id) && !rows[id].hasPDF
      ensures claim.Some? ==>
                var r := old(rows)[claim.value];
                rows[claim.value] == r.(status := Delivering, completedAt := None, token := Some(token),
                  expires := Some(now + duration), version := r.version + 1, retries := r.retries + 1)
      ensures ok && (exists id :: id in old(rows) && Mailable(old(rows)[id], now)) ==> claim.Some?
      ensures ok ==> forall id <- old(rows) :: GivenUp(old(rows)[id], now) ==>
                id in rows && rows[id].status.DeliveryFailed? && rows[id].failure == Some(DeliveryTimeout)
                && !rows[id].pending && rows[id].token.None?
    {
      var table := ExpireDeliveries(rows, now);
      var next := SelectNextEmail(table, now);
      if next.None? {
        assert forall id <- rows :: id in table && (Mailable(rows[id], now) ==> Sendable(table[id], now));
        rows := table;
        return None, true;
      }
      var id := next.value;
      var row := table[id];
      if !row.hasPDF { return None, false; }
      row := row.(status := Delivering, completedAt := None, token := Some(token), expires := Some(now + duration));
      row := row.(version := row.version + 1, retries := row.retries + 1);
      rows := table[id := row];
      return next, true;
    }

    static method SelectNextEmail(table: Rows, now: Time) returns (next: Option<JobId>)
      ensures next.Some? ==> IsNextEmail(table, now, next.value)
      ensures next.None? ==> forall id <- table :: !Sendable(table[id], now)
    {
      next := None;
      var todo := table.Keys;
      while todo != {}
        invariant todo <= table.Keys
        invariant next.Some? ==> IsNextEmail(map id | id in table && id !in todo :: table[id], now, next.value)
        invariant next.None? ==> forall id <- table :: id in todo || !Sendable(table[id], now)
        decreases todo
      {
        var id :| id in todo;
        todo := todo - {id};
        var row := table[id];
        if Sendable(row, now)
           && (next.None? || row.nextAttemptAt < table[next.value].nextAttemptAt
               || (row.nextAttemptAt == table[next.value].nextAttemptAt && row.createdAt < table[next.value].createdAt)) {
          next := Some(id);
        }
      }
      assert table == map id | id in table && id !in todo :: table[id];
    }

    // A result of a claim whose lease is over changes nothing.
    method FinishDelivery(id: JobId, token: Token, outcome: EmailOutcome, now: Time) returns (ok: bool)
      modifies this
      ensures rows == FinishEmail(old(rows), id, token, outcome, now)
      ensures ok <==> !(Current(old(rows), id, token, now) && outcome.OtherOutcome?)
      ensures !Claimed(old(rows), id, token, now) || outcome.OtherOutcome? ==> rows == old(rows)
      ensures Claimed(old(rows), id, token, now) && !outcome.OtherOutcome? ==>
                && id in rows && rows.Keys == old(rows).Keys
                && (forall other <- rows :: other != id ==> rows[other] == old(rows)[other])
                && Reported(old(rows)[id], rows[id], outcome, now)
    {
      if !Current(rows, id, token, now) { return true; }
      var row := rows[id];
      var status, category, pending := DeliveryFailed, Some(DeliveryTimeout), false;
      match outcome {
        case Accepted => status, category := Delivered, None;
        case Rejected => category := Some(DeliveryRejected);
        case TransientFailure =>
          if row.retries < 3 {
            status, pending, category := Ready, true, None;
          }
        case Uncertain =>
        case OtherOutcome(_) => return false;
      }
      row := row.(status := status, pending := pending, failure := category, token := None, expires := None);
      row := row.(completedAt := Some(now), nextAttemptAt := now + row.retries * BACKOFF, version := row.version + 1);
      rows := rows[id := row];
      return true;
    }
  }
}
