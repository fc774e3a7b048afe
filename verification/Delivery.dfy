/**
  Sending one email over SMTP: how the end of the conversation is classified,
  and when the relay has taken responsibility for the message.
*/
module Smtp {
  import opened Domain

  // A reply line with its code, or an error without one.
  datatype SmtpError = Reply(code: int) | NoReply

  datatype EmailOutcome = Accepted | Rejected | TransientFailure | Uncertain | OtherOutcome(name: string)

  // Where a conversation ended. Only after the message was ended by its dot
  // can the relay have taken it, whether or not its reply arrived.
  datatype Conversation =
    | ArtifactUnavailable
    | BadDestination
    | ConnectFailed(e: SmtpError)
    | MailRefused(e: SmtpError)
    | RcptRefused(e: SmtpError)
    | DataRefused(e: SmtpError)
    | BodyFailed(e: SmtpError)
    | Unconfirmed(e: SmtpError, taken: bool)
    | Confirmed

  function Classify(e: SmtpError, afterData: bool): EmailOutcome {
    match e
    case Reply(code) =>
      if code >= 500 then Rejected
      else if code >= 400 then TransientFailure
      else if afterData then Uncertain
      else TransientFailure
    case NoReply => if afterData then Uncertain else TransientFailure
  }

  function Send(c: Conversation): EmailOutcome {
    match c
    case ArtifactUnavailable => TransientFailure
    case BadDestination => Rejected
    case Unconfirmed(e, _) => Classify(e, true)
    case Confirmed => Accepted
    case _ => Classify(c.e, false)
  }

  predicate Taken(c: Conversation) {
    c.Confirmed? || (c.Unconfirmed? && c.taken)
  }

  // Section 4.2.5 of RFC 5321: after a 4yz or 5yz reply to the end of the
  // message the relay has not taken it.
  predicate Honest(c: Conversation) {
    c.Unconfirmed? && c.e.Reply? && c.e.code >= 400 ==> !c.taken
  }

  // Only an outcome that rules out acceptance is called rejected or transient,
  // and every conversation whose fate is open is called uncertain.
  lemma OutcomeIsSafe(c: Conversation)
    requires Honest(c)
    ensures Send(c) in {Rejected, TransientFailure} ==> !Taken(c)
    ensures Send(c) == Accepted <==> c.Confirmed?
    ensures Send(c) == Uncertain <==> c.Unconfirmed? && (c.e.Reply? ==> c.e.code < 400)
    ensures !Send(c).OtherOutcome?
  {
  }

  // The error that ended a conversation before the message was sent.
  function Early(c: Conversation): Option<SmtpError> {
    match c
    case ConnectFailed(e) => Some(e)
    case MailRefused(e) => Some(e)
    case RcptRefused(e) => Some(e)
    case DataRefused(e) => Some(e)
    case BodyFailed(e) => Some(e)
    case _ => None
  }

  // Rejected is a destination that cannot be, or a reply from 500 on; transient
  // is every other end before the message was sent, a missing PDF, and a reply
  // from 400 to 499 after it.
  lemma OutcomeExactly(c: Conversation)
    ensures Send(c).Rejected? <==>
              || c.BadDestination?
              || (Early(c).Some? && Early(c).value.Reply? && Early(c).value.code >= 500)
              || (c.Unconfirmed? && c.e.Reply? && c.e.code >= 500)
    ensures Send(c).TransientFailure? <==>
              || c.ArtifactUnavailable?
              || (Early(c).Some? && (Early(c).value.Reply? ==> Early(c).value.code < 500))
              || (c.Unconfirmed? && c.e.Reply? && 400 <= c.e.code < 500)
  {
  }
}

/** The delivery columns of the jobs table: claiming, finishing, asking again. */
module DeliveryTable {
  import opened Domain
  import opened JobStore
  import opened PostgresStore
  import opened Smtp

  const MAX_SENDS := 3
  const BACKOFF: Time := 30_000_000_000

  predicate Sendable(r: Row, now: Time) {
    r.status.Ready? && r.pending && !r.paused && r.nextAttemptAt <= now
  }

  // The row is first by next attempt and creation; ties fall either way.
  ghost predicate IsNextEmail(rows: Rows, now: Time, id: JobId) {
    && id in rows && Sendable(rows[id], now)
    && forall o <- rows :: Sendable(rows[o], now) ==>
         rows[id].nextAttemptAt < rows[o].nextAttemptAt
         || (rows[id].nextAttemptAt == rows[o].nextAttemptAt && rows[id].createdAt <= rows[o].createdAt)
  }

  function LeaseEmail(r: Row, now: Time, duration: nat, token: Token): Row {
    r.(status := Delivering, completedAt := None, token := Some(token), expires := Some(now + duration),
       version := r.version + 1, retries := r.retries + 1)
  }

  // A row without its PDF aborts the transaction.
  function ClaimEmail(rows: Rows, id: JobId, now: Time, duration: nat, token: Token): Rows
    requires id in rows
  {
    var expired := ExpireDeliveries(rows, now);
    if !expired[id].hasPDF then rows else expired[id := LeaseEmail(expired[id], now, duration, token)]
  }

  function FinishRow(r: Row, outcome: EmailOutcome, now: Time): Row
    requires !outcome.OtherOutcome?
  {
    var again := outcome.TransientFailure? && r.retries < MAX_SENDS;
    r.(status := if outcome.Accepted? then Delivered else if again then Ready else DeliveryFailed,
       pending := again,
       failure := if outcome.Accepted? || again then None
                  else if outcome.Rejected? then Some(DeliveryRejected) else Some(DeliveryTimeout),
       token := None, expires := None, completedAt := Some(now),
       nextAttemptAt := now + r.retries * BACKOFF, version := r.version + 1)
  }

  // The result counts only while the claim's own lease lasts.
  predicate Current(rows: Rows, id: JobId, token: Token, now: Time) {
    && id in rows && rows[id].status.Delivering? && rows[id].token == Some(token)
    && rows[id].expires.Some? && rows[id].expires.value > now
  }

  function FinishEmail(rows: Rows, id: JobId, token: Token, outcome: EmailOutcome, now: Time): Rows {
    if !Current(rows, id, token, now) || outcome.OtherOutcome? then rows
    else rows[id := FinishRow(rows[id], outcome, now)]
  }

  // An explicit request to send: a stored PDF is queued again unless its job
  // is leased.
  predicate CanResend(r: Row) {
    r.hasPDF && !r.status.Leased()
  }

  function Resend(r: Row, destination: string, now: Time): Row {
    r.(status := Ready, pending := true, paused := false, destination := Some(destination), retries := 0,
       nextAttemptAt := now, failure := None, version := r.version + 1)
  }

  // A failed delivery retried as a job: the same row is queued again if it has
  // a destination.
  predicate CanRetryEmail(r: Row) {
    r.status.DeliveryFailed? && r.destination.Some?
  }

  function RetryEmail(r: Row, now: Time): Row {
    r.(status := Ready, pending := true, retries := 0, failure := None, nextAttemptAt := now,
       version := r.version + 1)
  }

  function PauseRow(r: Row): Row {
    if r.destination.Some? && (r.status.Queued? || r.status.Processing? || r.status.Ready? || r.status.Failed?)
    then r.(paused := true) else r
  }

  function Pause(rows: Rows): Rows {
    map id | id in rows :: PauseRow(rows[id])
  }

  // An email request joins a PDF it has read to be under preparation; the
  // update itself does not look at the status again.
  function Join(r: Row, destination: string): Row {
    r.(destination := Some(destination), paused := false)
  }

  // A PDF uploaded by its owner, ready without any delivery.
  function UploadedRow(createdAt: Time): Row {
    NewRow(createdAt).(status := Ready, hasPDF := true, completedAt := Some(createdAt))
  }
}

/**
  Never the same email twice: every interleaving of job work, email claims,
  ends of conversations, results, expiries and requests by the owner.
*/
module DeliveryProtocol {
  import opened Domain
  import opened ClaimQueue
  import opened JobStore
  import opened PostgresStore
  import LeaseProtocol
  import AdapterSimulation
  import opened Smtp
  import opened DeliveryTable

  // An email claim with the state of its conversation. The window counts the
  // owner's requests for this job.
  datatype EmailClaim = EmailClaim(job: JobId, token: Token, window: nat, conversation: Option<Conversation>)

  datatype Event =
    | Work(e: LeaseProtocol.Event, lease: LeaseView, configured: Option<string>)
    | Upload(id: JobId, createdAt: Time)
    | Claim(id: JobId, now: Time, duration: nat, token: Token)
    | Expiry(now: Time)                 // a delivery claim that finds nothing to send
    | Ended(k: nat, conversation: Conversation)
    | Finish(k: nat, now: Time)
    | AskAgain(id: JobId, destination: string, now: Time)
    | RetryFailed(id: JobId, now: Time)
    | JoinJob(id: JobId, destination: string)
    | PauseAll

  datatype World = World(
    rows: Rows,
    ids: set<JobId>,
    leaseTokens: set<Token>,
    claimTokens: set<Token>,
    claims: seq<EmailClaim>,
    windows: map<JobId, nat>)

  const START := World(map[], {}, {}, {}, [], map[])

  function Window(w: World, id: JobId): nat {
    if id in w.windows then w.windows[id] else 0
  }

  ghost predicate Enabled(w: World, e: Event) {
    match e
    case Work(job, lease, _) =>
      if job.Create? then job.id !in w.ids
      else if job.Delete? then job.id in w.rows
      else if job.Claim? then job.token != "" && job.token !in w.leaseTokens + w.claimTokens
      else lease.token in w.leaseTokens
    case Upload(id, _) => id !in w.ids
    case Claim(id, now, _, token) =>
      token != "" && token !in w.leaseTokens + w.claimTokens && IsNextEmail(ExpireDeliveries(w.rows, now), now, id)
    case Ended(k, c) => k < |w.claims| && w.claims[k].conversation.None? && Honest(c)
    case Finish(k, _) => k < |w.claims| && w.claims[k].conversation.Some?
    case AskAgain(id, _, _) => id in w.rows && CanResend(w.rows[id])
    case RetryFailed(id, _) => id in w.rows && CanRetryEmail(w.rows[id])
    case JoinJob(id, _) => id in w.rows
    case _ => true
  }

  ghost function WorkRows(rows: Rows, e: LeaseProtocol.Event, lease: LeaseView, configured: Option<string>): Rows {
    if e.Create? then rows[e.id := NewRow(e.createdAt)]
    else if e.Delete? then rows - {e.id}
    else if e.Claim? then ClaimNextRow(rows, e.now, e.duration, e.token, e.clock).0
    else AdapterSimulation.ApplyRow(rows, lease, e, configured).rows
  }

  ghost function Step(w: World, e: Event): World
    requires Enabled(w, e)
  {
    match e
    case Work(job, lease, configured) =>
      w.(rows := WorkRows(w.rows, job, lease, configured),
         ids := if job.Create? then w.ids + {job.id} else w.ids,
         leaseTokens := if job.Claim? then w.leaseTokens + {job.token} else w.leaseTokens)
    case Upload(id, createdAt) => w.(rows := w.rows[id := UploadedRow(createdAt)], ids := w.ids + {id})
    case Claim(id, now, duration, token) =>
      if !w.rows[id].hasPDF then w
      else w.(rows := ClaimEmail(w.rows, id, now, duration, token), claimTokens := w.claimTokens + {token},
              claims := w.claims + [EmailClaim(id, token, Window(w, id), None)])
    case Expiry(now) => w.(rows := ExpireDeliveries(w.rows, now))
    case Ended(k, c) => w.(claims := w.claims[k := w.claims[k].(conversation := Some(c))])
    case Finish(k, now) =>
      var c := w.claims[k];
      w.(rows := FinishEmail(w.rows, c.job, c.token, Send(c.conversation.value), now))
    case AskAgain(id, destination, now) =>
      w.(rows := w.rows[id := Resend(w.rows[id], destination, now)], windows := w.windows[id := Window(w, id) + 1])
    case RetryFailed(id, now) =>
      w.(rows := w.rows[id := RetryEmail(w.rows[id], now)], windows := w.windows[id := Window(w, id) + 1])
    case JoinJob(id, destination) => w.(rows := w.rows[id := Join(w.rows[id], destination)])
    case PauseAll => w.(rows := Pause(w.rows))
  }

  ghost predicate Feasible(w: World, run: seq<Event>)
    decreases |run|
  {
    run == [] || (Enabled(w, run[0]) && Feasible(Step(w, run[0]), run[1..]))
  }

  ghost function Exec(w: World, run: seq<Event>): World
    requires Feasible(w, run)
    decreases |run|
  {
    if run == [] then w else Exec(Step(w, run[0]), run[1..])
  }

  // The claims made for a job in one window.
  ghost function ClaimsIn(claims: seq<EmailClaim>, id: JobId, window: nat): set<nat> {
    set k | 0 <= k < |claims| && claims[k].job == id && claims[k].window == window
  }

  // The relay has not taken this email and no longer can.
  predicate Settled(c: EmailClaim) {
    c.conversation.Some? && Send(c.conversation.value) in {Rejected, TransientFailure} && !Taken(c.conversation.value)
  }

  predicate TakenClaim(c: EmailClaim) {
    c.conversation.Some? && Taken(c.conversation.value)
  }

  // ------------------------------------------------------------- invariant

  ghost predicate ClaimsOk(w: World) {
    && (forall k | 0 <= k < |w.claims| ::
          var c := w.claims[k];
          c.token in w.claimTokens && c.job in w.ids && c.window <= Window(w, c.job)
          && (c.conversation.Some? ==> Honest(c.conversation.value)))
    && (forall i, j | 0 <= i < |w.claims| && 0 <= j < |w.claims| && i != j :: w.claims[i].token != w.claims[j].token)
    && (forall i, j | 0 <= i < |w.claims| && 0 <= j < |w.claims| && i != j
                      && w.claims[i].job == w.claims[j].job && w.claims[i].window == w.claims[j].window ::
          Settled(w.claims[i]) || Settled(w.claims[j]))
    && (forall id, window :: |ClaimsIn(w.claims, id, window)| <= MAX_SENDS)
    && w.windows.Keys <= w.ids
  }

  // One row against the claims made for it since the owner last asked.
  ghost predicate DeliveryOk(w: World, id: JobId, r: Row) {
    && RowOk(r)
    && r.retries == |ClaimsIn(w.claims, id, Window(w, id))| <= MAX_SENDS
    && (r.hasPDF <==> r.status.Ready? || r.status.Delivering? || r.status.Delivered? || r.status.DeliveryFailed?)
    && (!r.hasPDF ==> !r.pending && r.retries == 0)
    && (r.pending ==> r.status.Ready? || r.status.Delivering?)
    && (r.status.Processing? ==> r.token.value in w.leaseTokens)
    && (r.status.Delivering? ==> r.token.value in w.claimTokens)
    && (r.status.Ready? && r.pending ==>
          r.retries < MAX_SENDS && forall k <- ClaimsIn(w.claims, id, Window(w, id)) :: Settled(w.claims[k]))
    && (r.status.Delivering? ==>
          forall k | 0 <= k < |w.claims| ::
            && (w.claims[k].token == r.token.value ==> w.claims[k].job == id && w.claims[k].window == Window(w, id))
            && (k in ClaimsIn(w.claims, id, Window(w, id)) && w.claims[k].token != r.token.value ==> Settled(w.claims[k])))
  }

  ghost predicate Inv(w: World) {
    && w.rows.Keys <= w.ids
    && w.leaseTokens !! w.claimTokens
    && ClaimsOk(w)
    && forall id <- w.rows :: DeliveryOk(w, id, w.rows[id])
  }

  // Claims, windows and email tokens are the same; more may be known otherwise.
  ghost predicate SameMail(w: World, v: World) {
    && v.claims == w.claims && v.windows == w.windows && v.claimTokens == w.claimTokens
    && w.leaseTokens <= v.leaseTokens && w.ids <= v.ids
  }

  lemma FrameRow(w: World, v: World, id: JobId, r: Row)
    requires SameMail(w, v) && DeliveryOk(w, id, r)
    ensures DeliveryOk(v, id, r)
  {
  }

  lemma FrameClaims(w: World, v: World)
    requires SameMail(w, v) && ClaimsOk(w)
    ensures ClaimsOk(v)
  {
  }

  // --------------------------------------------------------- row by row

  lemma NoClaimsYet(w: World, id: JobId)
    requires ClaimsOk(w) && id !in w.ids
    ensures forall window :: ClaimsIn(w.claims, id, window) == {}
    ensures Window(w, id) == 0
  {
  }

  lemma ExpiryKeepsRow(w: World, id: JobId, now: Time)
    requires id in w.rows && DeliveryOk(w, id, w.rows[id])
    ensures DeliveryOk(w, id, ExpireDelivery(w.rows[id], now))
    ensures DeliveryOk(w, id, ReclaimRow(ExpireDelivery(w.rows[id], now), now))
  {
  }

  lemma JobClaimKeepsRow(w: World, id: JobId, r: Row, now: Time, duration: int, token: Token)
    requires DeliveryOk(w, id, r) && r.status.Queued? && token in w.leaseTokens
    ensures DeliveryOk(w, id, ClaimRow(r, now, duration, token))
  {
  }

  // No job lease ever matches a row that is being delivered.
  lemma DeliveringStays(w: World, l: LeaseView, e: LeaseProtocol.Event, configured: Option<string>)
    requires LeaseProtocol.OnLease(e) && l.token in w.leaseTokens && w.leaseTokens !! w.claimTokens
    requires l.job in w.rows && DeliveryOk(w, l.job, w.rows[l.job]) && w.rows[l.job].status.Delivering?
    ensures AdapterSimulation.ApplyRow(w.rows, l, e, configured).rows == w.rows
  {
    assert w.rows[l.job].token != Some(l.token);
  }

  lemma OperationKeepsRow(w: World, l: LeaseView, e: LeaseProtocol.Event, configured: Option<string>)
    requires LeaseProtocol.OnLease(e) && l.token in w.leaseTokens && w.leaseTokens !! w.claimTokens
    requires l.job in w.rows && DeliveryOk(w, l.job, w.rows[l.job])
    ensures var rows := AdapterSimulation.ApplyRow(w.rows, l, e, configured).rows;
            && rows.Keys == w.rows.Keys
            && DeliveryOk(w, l.job, rows[l.job])
            && forall id <- w.rows :: id != l.job ==> rows[id] == w.rows[id]
  {
  }

  lemma JobClaimKeepsRows(w: World, e: LeaseProtocol.Event, id: JobId)
    requires e.Claim? && e.token in w.leaseTokens && id in w.rows && DeliveryOk(w, id, w.rows[id])
    ensures var rows := ClaimNextRow(w.rows, e.now, e.duration, e.token, e.clock).0;
            id in rows && DeliveryOk(w, id, rows[id])
  {
    var now := Instant(e.now, e.clock);
    ExpiryKeepsRow(w, id, now);
    var ready := Reclaim(ExpireDeliveries(w.rows, now), now);
    var first := First(DueRows(ready, now));
    if first == Some(id) {
      assert id in DueRows(ready, now);
      JobClaimKeepsRow(w, id, ready[id], now, e.duration, e.token);
    }
  }

  lemma JobClaimKeepsKeys(rows: Rows, e: LeaseProtocol.Event)
    requires e.Claim?
    ensures ClaimNextRow(rows, e.now, e.duration, e.token, e.clock).0.Keys == rows.Keys
  {
    var now := Instant(e.now, e.clock);
    var ready := Reclaim(ExpireDeliveries(rows, now), now);
    var first := First(DueRows(ready, now));
    if first.Some? { assert first.value in DueRows(ready, now); }
  }

  lemma CreateKeepsRow(w: World, e: Event, id: JobId)
    requires Inv(w) && Enabled(w, e) && e.Work? && e.e.Create? && id in Step(w, e).rows
    ensures DeliveryOk(Step(w, e), id, Step(w, e).rows[id])
  {
    if id == e.e.id { NoClaimsYet(w, id); } else { FrameRow(w, Step(w, e), id, w.rows[id]); }
  }

  lemma JobClaimKeepsWork(w: World, e: Event, id: JobId)
    requires Inv(w) && Enabled(w, e) && e.Work? && e.e.Claim? && id in Step(w, e).rows
    ensures DeliveryOk(Step(w, e), id, Step(w, e).rows[id])
  {
    var v := Step(w, e);
    JobClaimKeepsKeys(w.rows, e.e);
    FrameRow(w, v, id, w.rows[id]);
    JobClaimKeepsRows(v.(rows := w.rows), e.e, id);
    FrameRow(v.(rows := w.rows), v, id, v.rows[id]);
  }

  lemma OperationKeepsWork(w: World, e: Event, id: JobId)
    requires Inv(w) && Enabled(w, e) && e.Work? && LeaseProtocol.OnLease(e.e) && id in Step(w, e).rows
    ensures DeliveryOk(Step(w, e), id, Step(w, e).rows[id])
  {
    var v := Step(w, e);
    if e.lease.job in w.rows {
      OperationKeepsRow(w, e.lease, e.e, e.configured);
    }
    FrameRow(w, v, id, v.rows[id]);
  }

  lemma WorkKeepsRow(w: World, e: Event, id: JobId)
    requires Inv(w) && Enabled(w, e) && e.Work? && id in Step(w, e).rows
    ensures DeliveryOk(Step(w, e), id, Step(w, e).rows[id])
  {
    if e.e.Create? {
      CreateKeepsRow(w, e, id);
    } else if e.e.Claim? {
      JobClaimKeepsWork(w, e, id);
    } else if LeaseProtocol.OnLease(e.e) {
      OperationKeepsWork(w, e, id);
    } else {
      FrameRow(w, Step(w, e), id, w.rows[id]);
    }
  }

  lemma WorkKeepsInv(w: World, e: Event)
    requires Inv(w) && Enabled(w, e) && e.Work?
    ensures Inv(Step(w, e))
  {
    var v := Step(w, e);
    FrameClaims(w, v);
    WorkKeepsKeys(w, e);
    forall id <- v.rows
      ensures DeliveryOk(v, id, v.rows[id])
    {
      WorkKeepsRow(w, e, id);
    }
  }

  lemma WorkKeepsKeys(w: World, e: Event)
    requires Inv(w) && Enabled(w, e) && e.Work?
    ensures Step(w, e).rows.Keys <= Step(w, e).ids
  {
    if e.e.Claim? {
      JobClaimKeepsKeys(w.rows, e.e);
    } else if LeaseProtocol.OnLease(e.e) && e.lease.job in w.rows {
      OperationKeepsRow(w, e.lease, e.e, e.configured);
    }
  }

  // ------------------------------------------------------- email events

  lemma AppendClaim(claims: seq<EmailClaim>, c: EmailClaim, id: JobId, window: nat)
    ensures ClaimsIn(claims + [c], id, window)
            == ClaimsIn(claims, id, window) + if c.job == id && c.window == window then {|claims|} else {}
  {
  }

  lemma AppendedCount(claims: seq<EmailClaim>, c: EmailClaim, id: JobId, window: nat)
    ensures |ClaimsIn(claims + [c], id, window)|
            == |ClaimsIn(claims, id, window)| + if c.job == id && c.window == window then 1 else 0
  {
    AppendClaim(claims, c, id, window);
    assert |claims| !in ClaimsIn(claims, id, window);
  }

  lemma EmailClaimKeepsClaims(w: World, e: Event)
    requires Inv(w) && Enabled(w, e) && e.Claim? && w.rows[e.id].hasPDF
    ensures ClaimsOk(Step(w, e))
  {
    var v := Step(w, e);
    var c := v.claims[|w.claims|];
    assert DeliveryOk(w, e.id, w.rows[e.id]);
    forall id, window
      ensures |ClaimsIn(v.claims, id, window)| <= MAX_SENDS
    {
      EmailClaimCounted(w, e, id, window);
    }
    EarlierSettled(w, e.id);
  }

  lemma EmailClaimCounted(w: World, e: Event, id: JobId, window: nat)
    requires Inv(w) && Enabled(w, e) && e.Claim? && w.rows[e.id].hasPDF
    ensures |ClaimsIn(Step(w, e).claims, id, window)| <= MAX_SENDS
  {
    assert DeliveryOk(w, e.id, w.rows[e.id]);
    AppendedCount(w.claims, Step(w, e).claims[|w.claims|], id, window);
  }

  // Nothing is open when a row can be claimed for email.
  lemma EarlierSettled(w: World, id: JobId)
    requires id in w.rows && DeliveryOk(w, id, w.rows[id]) && w.rows[id].status.Ready? && w.rows[id].pending
    ensures forall i | 0 <= i < |w.claims| && w.claims[i].job == id && w.claims[i].window == Window(w, id) ::
              Settled(w.claims[i])
  {
    forall i | 0 <= i < |w.claims| && w.claims[i].job == id && w.claims[i].window == Window(w, id)
      ensures Settled(w.claims[i])
    {
      assert i in ClaimsIn(w.claims, id, Window(w, id));
    }
  }

  // The claimed row is leased; the others may only expire.
  lemma EmailClaimKeepsClaimed(w: World, e: Event)
    requires Inv(w) && Enabled(w, e) && e.Claim? && w.rows[e.id].hasPDF
    ensures e.id in Step(w, e).rows && DeliveryOk(Step(w, e), e.id, Step(w, e).rows[e.id])
  {
    var v := Step(w, e);
    assert DeliveryOk(w, e.id, w.rows[e.id]);
    assert ExpireDelivery(w.rows[e.id], e.now) == w.rows[e.id];
    AppendClaim(w.claims, v.claims[|w.claims|], e.id, Window(w, e.id));
    AppendedCount(w.claims, v.claims[|w.claims|], e.id, Window(w, e.id));
  }

  // A claim for another job leaves this row's claims as they are.
  lemma ElsewhereClaimed(w: World, v: World, c: EmailClaim, id: JobId, r: Row)
    requires v.claims == w.claims + [c] && v.windows == w.windows && v.leaseTokens == w.leaseTokens
    requires v.claimTokens == w.claimTokens + {c.token} && c.token !in w.claimTokens && c.job != id
    requires DeliveryOk(w, id, r)
    ensures DeliveryOk(v, id, r)
  {
    AppendClaim(w.claims, c, id, Window(w, id));
  }

  lemma EmailClaimKeepsRow(w: World, e: Event, id: JobId)
    requires Inv(w) && Enabled(w, e) && e.Claim? && w.rows[e.id].hasPDF && id in w.rows && id != e.id
    ensures id in Step(w, e).rows && DeliveryOk(Step(w, e), id, Step(w, e).rows[id])
  {
    var v := Step(w, e);
    ExpiryKeepsRow(w, id, e.now);
    ElsewhereClaimed(w, v, v.claims[|w.claims|], id, v.rows[id]);
  }

  lemma EmailClaimKeepsRows(w: World, e: Event, id: JobId)
    requires Inv(w) && Enabled(w, e) && e.Claim? && w.rows[e.id].hasPDF && id in Step(w, e).rows
    ensures id in w.rows && DeliveryOk(Step(w, e), id, Step(w, e).rows[id])
  {
    if id == e.id { EmailClaimKeepsClaimed(w, e); } else { EmailClaimKeepsRow(w, e, id); }
  }

  lemma EmailClaimKeepsInv(w: World, e: Event)
    requires Inv(w) && Enabled(w, e) && e.Claim?
    ensures Inv(Step(w, e))
  {
    if w.rows[e.id].hasPDF {
      EmailClaimKeepsClaims(w, e);
      forall id <- Step(w, e).rows
        ensures id in w.rows && DeliveryOk(Step(w, e), id, Step(w, e).rows[id])
      {
        EmailClaimKeepsRows(w, e, id);
      }
    }
  }

  lemma EndedKeepsInv(w: World, e: Event)
    requires Inv(w) && Enabled(w, e) && e.Ended?
    ensures Inv(Step(w, e))
  {
    var v := Step(w, e);
    forall id: JobId, window: nat
      ensures ClaimsIn(v.claims, id, window) == ClaimsIn(w.claims, id, window)
    {
    }
    forall k | 0 <= k < |w.claims| && Settled(w.claims[k])
      ensures Settled(v.claims[k])
    {
    }
    forall id <- v.rows ensures DeliveryOk(v, id, v.rows[id]) {
      assert DeliveryOk(w, id, w.rows[id]);
    }
  }

  lemma FinishKeepsRow(w: World, k: nat, now: Time)
    requires Inv(w) && k < |w.claims| && w.claims[k].conversation.Some?
    requires var c := w.claims[k]; Current(w.rows, c.job, c.token, now)
    ensures var c := w.claims[k];
            DeliveryOk(w, c.job, FinishRow(w.rows[c.job], Send(c.conversation.value), now))
  {
    var c := w.claims[k];
    assert DeliveryOk(w, c.job, w.rows[c.job]);
    OutcomeIsSafe(c.conversation.value);
    forall i <- ClaimsIn(w.claims, c.job, Window(w, c.job))
      ensures w.claims[i].token == c.token ==> i == k
      ensures i != k ==> Settled(w.claims[i])
    {
    }
  }

  lemma FinishKeepsInv(w: World, e: Event)
    requires Inv(w) && Enabled(w, e) && e.Finish?
    ensures Inv(Step(w, e))
  {
    var v := Step(w, e);
    var c := w.claims[e.k];
    FrameClaims(w, v);
    if Current(w.rows, c.job, c.token, e.now) {
      FinishKeepsRow(w, e.k, e.now);
      OutcomeIsSafe(c.conversation.value);
    }
    forall id <- v.rows ensures DeliveryOk(v, id, v.rows[id]) {
      assert DeliveryOk(w, id, w.rows[id]);
      FrameRow(w, v, id, v.rows[id]);
    }
  }

  // A request of the owner opens a window without claims.
  lemma RequestKeepsRow(w: World, e: Event, id: JobId)
    requires Inv(w) && Enabled(w, e) && (e.AskAgain? || e.RetryFailed?) && id in Step(w, e).rows
    ensures DeliveryOk(Step(w, e), id, Step(w, e).rows[id])
  {
    var v := Step(w, e);
    assert DeliveryOk(w, id, w.rows[id]);
    if id == e.id { assert ClaimsIn(v.claims, id, Window(v, id)) == {}; }
  }

  lemma RequestKeepsInv(w: World, e: Event)
    requires Inv(w) && Enabled(w, e) && (e.AskAgain? || e.RetryFailed?)
    ensures Inv(Step(w, e))
  {
    var v := Step(w, e);
    forall id <- v.rows ensures DeliveryOk(v, id, v.rows[id]) { RequestKeepsRow(w, e, id); }
  }

  lemma UploadKeepsInv(w: World, e: Event)
    requires Inv(w) && Enabled(w, e) && e.Upload?
    ensures Inv(Step(w, e))
  {
    var v := Step(w, e);
    NoClaimsYet(w, e.id);
    FrameClaims(w, v);
    forall id <- v.rows ensures DeliveryOk(v, id, v.rows[id]) {
      if id in w.rows { FrameRow(w, v, id, w.rows[id]); }
    }
  }

  // Expiries, joins and pauses change rows one by one.
  lemma OtherKeepsInv(w: World, e: Event)
    requires Inv(w) && Enabled(w, e) && (e.Expiry? || e.JoinJob? || e.PauseAll?)
    ensures Inv(Step(w, e))
  {
    var v := Step(w, e);
    FrameClaims(w, v);
    forall id <- v.rows ensures DeliveryOk(v, id, v.rows[id]) {
      assert DeliveryOk(w, id, w.rows[id]);
      if e.Expiry? { ExpiryKeepsRow(w, id, e.now); }
      FrameRow(w, v, id, v.rows[id]);
    }
  }

  lemma {:induction false} StepKeepsInv(w: World, e: Event)
    requires Inv(w) && Enabled(w, e)
    ensures Inv(Step(w, e))
  {
    match e
    case Work(_, _, _) => WorkKeepsInv(w, e);
    case Upload(_, _) => UploadKeepsInv(w, e);
    case Claim(_, _, _, _) => EmailClaimKeepsInv(w, e);
    case Ended(_, _) => EndedKeepsInv(w, e);
    case Finish(_, _) => FinishKeepsInv(w, e);
    case AskAgain(_, _, _) => RequestKeepsInv(w, e);
    case RetryFailed(_, _) => RequestKeepsInv(w, e);
    case _ => OtherKeepsInv(w, e);
  }

  lemma {:induction false} RunKeepsInv(w: World, run: seq<Event>)
    requires Inv(w) && Feasible(w, run)
    ensures Inv(Exec(w, run))
    decreases |run|
  {
    if run != [] {
      StepKeepsInv(w, run[0]);
      RunKeepsInv(Step(w, run[0]), run[1..]);
    }
  }

  lemma StartOk()
    ensures Inv(START)
  {
    assert forall id: JobId, window: nat :: ClaimsIn(START.claims, id, window) == {};
  }

  // Between two requests of the owner an email is claimed at most three times
  // and taken by the relay at most once, whatever happens in between.
  lemma {:induction false} NeverTwice(run: seq<Event>)
    requires Feasible(START, run)
    ensures var w := Exec(START, run);
            && (forall id, window :: |ClaimsIn(w.claims, id, window)| <= MAX_SENDS)
            && (forall i, j | 0 <= i < |w.claims| && 0 <= j < |w.claims|
                   && w.claims[i].job == w.claims[j].job && w.claims[i].window == w.claims[j].window
                   && TakenClaim(w.claims[i]) && TakenClaim(w.claims[j]) :: i == j)
  {
    StartOk();
    RunKeepsInv(START, run);
  }

  // An email that was accepted, rejected, left uncertain or whose claim
  // expired is only ever queued again by a request of the owner.
  lemma OnlyTheOwnerResends(w: World, e: Event, id: JobId)
    requires Inv(w) && Enabled(w, e) && id in w.rows
    requires w.rows[id].status.Delivered? || w.rows[id].status.DeliveryFailed?
    requires !((e.AskAgain? || e.RetryFailed?) && e.id == id)
    ensures id in Step(w, e).rows ==>
              Step(w, e).rows[id] == if e.JoinJob? && e.id == id then Join(w.rows[id], e.destination) else w.rows[id]
  {
    assert DeliveryOk(w, id, w.rows[id]);
    if e.Work? { WorkKeepsSent(w, e, id); }
  }

  lemma WorkKeepsSent(w: World, e: Event, id: JobId)
    requires Inv(w) && Enabled(w, e) && e.Work? && id in w.rows
    requires w.rows[id].status.Delivered? || w.rows[id].status.DeliveryFailed?
    ensures id in Step(w, e).rows ==> Step(w, e).rows[id] == w.rows[id]
  {
    if e.e.Claim? {
      var now := Instant(e.e.now, e.e.clock);
      var ready := Reclaim(ExpireDeliveries(w.rows, now), now);
      var first := First(DueRows(ready, now));
      if first.Some? { assert first.value in DueRows(ready, now); }
    } else if LeaseProtocol.OnLease(e.e) && e.lease.job in w.rows {
      assert DeliveryOk(w, id, w.rows[id]);
      OperationKeepsRow(w, e.lease, e.e, e.configured);
      if e.lease.job == id { FinishedRowRefuses(w, e, id); }
    }
  }

  lemma FinishedRowRefuses(w: World, e: Event, id: JobId)
    requires Enabled(w, e) && e.Work? && LeaseProtocol.OnLease(e.e) && e.lease.job == id
    requires id in w.rows && RowOk(w.rows[id]) && !w.rows[id].status.Leased()
    ensures Step(w, e).rows[id] == w.rows[id]
  {
  }

  // ------------------------------------------------- what is sent after all

  lemma {:induction false} NextEmailExists(rows: Rows, now: Time, some: JobId)
    requires some in rows && Sendable(rows[some], now)
    ensures exists id :: IsNextEmail(rows, now, id)
    decreases |rows|
  {
    var rest := rows - {some};
    if next :| next in rest && Sendable(rest[next], now) {
      NextEmailExists(rest, now, next);
      var id :| IsNextEmail(rest, now, id);
      EarlierOfTwo(rows, now, some, id);
    } else {
      assert forall o <- rows :: Sendable(rows[o], now) ==> o == some || o in rest;
      assert IsNextEmail(rows, now, some);
    }
  }

  lemma EarlierOfTwo(rows: Rows, now: Time, a: JobId, b: JobId)
    requires a in rows && Sendable(rows[a], now) && IsNextEmail(rows - {a}, now, b)
    ensures IsNextEmail(rows, now, a) || IsNextEmail(rows, now, b)
  {
    assert forall o <- rows :: o == a || (o in rows - {a} && (rows - {a})[o] == rows[o]);
  }

  // A delivery with a fresh token finds an email to send, PDF and all.
  ghost predicate FindsEmail(w: World, now: Time) {
    exists id :: IsNextEmail(ExpireDeliveries(w.rows, now), now, id) && id in w.rows && w.rows[id].hasPDF
  }

  lemma MailableIsFound(w: World, id: JobId, now: Time)
    requires Inv(w) && id in w.rows && w.rows[id].status.Ready? && w.rows[id].pending && !w.rows[id].paused
    requires w.rows[id].nextAttemptAt <= now
    ensures FindsEmail(w, now)
  {
    var expired := ExpireDeliveries(w.rows, now);
    assert Sendable(expired[id], now);
    NextEmailExists(expired, now, id);
    var next :| IsNextEmail(expired, now, next);
    assert DeliveryOk(w, next, w.rows[next]);
  }

  // A completed job with a destination, its own or the configured one, is due
  // to be mailed unless delivery is paused; without one it is not.
  lemma CompletedIsMailed(w: World, e: Event, now: Time)
    requires Inv(w) && Enabled(w, e) && e.Work? && e.e.Finish? && e.lease.job in w.rows
    requires AdapterSimulation.ApplyRow(w.rows, e.lease, e.e, e.configured).result == Done
    ensures var before, after := w.rows[e.lease.job], Step(w, e).rows[e.lease.job];
            && after.status.Ready? && after.hasPDF
            && after.destination == (if before.destination.Some? then before.destination else e.configured)
            && (after.pending <==> before.destination.Some? || e.configured.Some?)
    ensures var r := w.rows[e.lease.job];
            (r.destination.Some? || e.configured.Some?) && !r.paused && r.nextAttemptAt <= now ==>
              FindsEmail(Step(w, e), now)
  {
    StepKeepsInv(w, e);
    var r := w.rows[e.lease.job];
    if (r.destination.Some? || e.configured.Some?) && !r.paused && r.nextAttemptAt <= now {
      MailableIsFound(Step(w, e), e.lease.job, now);
    }
  }

  // The owner may ask for every stored PDF that is not under a lease, and retry
  // a failed delivery that has a destination.
  lemma OwnerMayAsk(w: World, id: JobId, destination: string, now: Time)
    requires id in w.rows
    ensures Enabled(w, AskAgain(id, destination, now)) <==>
              w.rows[id].hasPDF && !w.rows[id].status.Processing? && !w.rows[id].status.Delivering?
    ensures Enabled(w, RetryFailed(id, now)) <==> w.rows[id].status.DeliveryFailed? && w.rows[id].destination.Some?
  {
  }

  // So is an email its owner asks for again.
  lemma RequestIsMailed(w: World, e: Event)
    requires Inv(w) && Enabled(w, e) && (e.AskAgain? || (e.RetryFailed? && !w.rows[e.id].paused))
    ensures FindsEmail(Step(w, e), e.now)
    ensures Step(w, e).rows[e.id].destination
            == if e.AskAgain? then Some(e.destination) else w.rows[e.id].destination
  {
    StepKeepsInv(w, e);
    MailableIsFound(Step(w, e), e.id, e.now);
  }

  // An email asked for while its job is under preparation is sent once the job
  // is completed, to the destination of the request and even after a pause.
  lemma JoinedIsMailed(w: World, join: Event, e: Event, now: Time)
    requires Inv(w) && Enabled(w, join) && join.JoinJob?
    requires Enabled(Step(w, join), e) && e.Work? && e.e.Finish? && e.lease.job == join.id
    requires AdapterSimulation.ApplyRow(Step(w, join).rows, e.lease, e.e, e.configured).result == Done
    requires w.rows[join.id].nextAttemptAt <= now
    ensures var t := Step(Step(w, join), e);
            FindsEmail(t, now) && t.rows[join.id].destination == Some(join.destination)
  {
    StepKeepsInv(w, join);
    CompletedIsMailed(Step(w, join), e, now);
  }

  // A pause stops every email not being sent and leaves the others as they
  // are; one asked for later is sent.
  lemma PausedIsNotMailed(w: World, id: JobId, now: Time)
    requires id in w.rows && w.rows[id].destination.Some?
    ensures id in Step(w, PauseAll).rows && !Sendable(Step(w, PauseAll).rows[id], now)
    ensures var r, t := w.rows[id], Step(w, PauseAll).rows[id];
            t == if r.status in {Queued, Processing, Ready, Failed} then r.(paused := true) else r
  {
  }

  // A confirmed conversation that is finished while its claim lasts makes the
  // email delivered.
  lemma ConfirmedIsDelivered(w: World, e: Event)
    requires Inv(w) && Enabled(w, e) && e.Finish? && w.claims[e.k].conversation == Some(Confirmed)
    requires var c := w.claims[e.k];
             && c.job in w.rows && w.rows[c.job].status.Delivering? && w.rows[c.job].token == Some(c.token)
             && w.rows[c.job].expires.Some? && w.rows[c.job].expires.value > e.now
    ensures var r := Step(w, e).rows[w.claims[e.k].job]; r.status.Delivered? && r.failure.None? && !r.pending
  {
  }

  // A deleted row does not come back.
  lemma StepStaysAway(w: World, e: Event, id: JobId)
    requires Inv(w) && Enabled(w, e) && id in w.ids && id !in w.rows
    ensures id in Step(w, e).ids && id !in Step(w, e).rows
  {
    if e.Work? {
      if e.e.Claim? {
        JobClaimKeepsKeys(w.rows, e.e);
      } else if LeaseProtocol.OnLease(e.e) && e.lease.job in w.rows {
        OperationKeepsRow(w, e.lease, e.e, e.configured);
      }
    }
  }

  lemma {:induction false} StaysAway(w: World, run: seq<Event>, id: JobId)
    requires Inv(w) && Feasible(w, run) && id in w.ids && id !in w.rows
    ensures id !in Exec(w, run).rows
    decreases |run|
  {
    if run != [] {
      StepStaysAway(w, run[0], id);
      StepKeepsInv(w, run[0]);
      StaysAway(Step(w, run[0]), run[1..], id);
    }
  }

  // It stays delivered in every run without another request of the owner.
  lemma {:induction false} DeliveredStays(w: World, run: seq<Event>, id: JobId)
    requires Inv(w) && Feasible(w, run) && id in w.rows && w.rows[id].status.Delivered?
    requires forall e <- run :: !((e.AskAgain? || e.RetryFailed?) && e.id == id)
    requires id in Exec(w, run).rows
    ensures Exec(w, run).rows[id].status.Delivered?
    decreases |run|
  {
    if run != [] {
      var v := Step(w, run[0]);
      StepKeepsInv(w, run[0]);
      if id in v.rows {
        OnlyTheOwnerResends(w, run[0], id);
        DeliveredStays(v, run[1..], id);
      } else {
        StaysAway(v, run[1..], id);
      }
    }
  }

  // ----------------------------------------------------- what is reported

  // A delivered email was confirmed by the relay since it was last asked for,
  // and a rejected one was taken by none of its attempts.
  ghost predicate ReportTrue(w: World, id: JobId)
    requires id in w.rows
  {
    var r := w.rows[id];
    && (r.status.Delivered? ==>
          exists k :: k in ClaimsIn(w.claims, id, Window(w, id)) && w.claims[k].conversation == Some(Confirmed))
    && (r.status.DeliveryFailed? && r.failure == Some(DeliveryRejected) ==>
          forall k <- ClaimsIn(w.claims, id, Window(w, id)) ::
            w.claims[k].conversation.Some? && !Taken(w.claims[k].conversation.value))
  }

  predicate Over(r: Row) {
    r.status.Delivered? || r.status.DeliveryFailed?
  }

  // Claims are only added, and their conversations end once.
  ghost predicate ClaimsOf(w: World, v: World, id: JobId) {
    && ClaimsIn(v.claims, id, Window(w, id)) == ClaimsIn(w.claims, id, Window(w, id))
    && |w.claims| <= |v.claims|
    && forall k | 0 <= k < |w.claims| :: w.claims[k].conversation.Some? ==> v.claims[k] == w.claims[k]
  }

  lemma NoClaimOfOver(w: World, e: Event, id: JobId)
    requires Enabled(w, e) && e.Claim? && w.rows[e.id].hasPDF && id in w.rows && Over(w.rows[id])
    ensures ClaimsOf(w, Step(w, e), id)
  {
    assert ExpireDelivery(w.rows[id], e.now) == w.rows[id];
    AppendClaim(w.claims, Step(w, e).claims[|w.claims|], id, Window(w, id));
  }

  lemma EndedOnce(w: World, e: Event, id: JobId)
    requires Enabled(w, e) && e.Ended?
    ensures ClaimsOf(w, Step(w, e), id)
  {
  }

  lemma SameClaims(w: World, e: Event, id: JobId)
    requires Enabled(w, e) && !e.Claim? && !e.Ended?
    ensures ClaimsOf(w, Step(w, e), id)
  {
    assert Step(w, e).claims == w.claims;
  }

  lemma ClaimsGrow(w: World, e: Event, id: JobId)
    requires Enabled(w, e) && id in w.rows && Over(w.rows[id])
    ensures ClaimsOf(w, Step(w, e), id)
  {
    if e.Claim? {
      if w.rows[e.id].hasPDF { NoClaimOfOver(w, e, id); }
    } else if e.Ended? {
      EndedOnce(w, e, id);
    } else {
      SameClaims(w, e, id);
    }
  }

  lemma OverStaysTrue(w: World, e: Event, id: JobId)
    requires Inv(w) && Enabled(w, e) && id in w.rows && Over(w.rows[id]) && ReportTrue(w, id)
    requires id in Step(w, e).rows && !((e.AskAgain? || e.RetryFailed?) && e.id == id)
    ensures ReportTrue(Step(w, e), id)
  {
    OnlyTheOwnerResends(w, e, id);
    ClaimsGrow(w, e, id);
  }

  // A result reports what its own conversation and the earlier ones allow.
  lemma FinishReports(w: World, e: Event, id: JobId)
    requires Inv(w) && Enabled(w, e) && e.Finish? && id in w.rows && !Over(w.rows[id])
    ensures ReportTrue(Step(w, e), id)
  {
    var c := w.claims[e.k];
    assert DeliveryOk(w, id, w.rows[id]);
    OutcomeIsSafe(c.conversation.value);
    if Over(Step(w, e).rows[id]) {
      assert c.job == id && c.window == Window(w, id);
      assert e.k in ClaimsIn(w.claims, id, Window(w, id));
      forall k | k in ClaimsIn(w.claims, id, Window(w, id)) && k != e.k ensures Settled(w.claims[k]) {}
    }
  }

  // Nothing else makes an email delivered or rejected.
  predicate Unreported(r: Row) {
    !r.status.Delivered? && (r.status.DeliveryFailed? ==> r.failure == Some(DeliveryTimeout))
  }

  lemma OnlyResultsReport(w: World, e: Event, id: JobId)
    requires Inv(w) && Enabled(w, e) && !e.Finish? && id in Step(w, e).rows && (id in w.rows ==> !Over(w.rows[id]))
    ensures Unreported(Step(w, e).rows[id])
  {
    if e.Work? {
      WorkReportsNothing(w, e, id);
    } else if e.Claim? {
      assert Unreported(ExpireDelivery(w.rows[id], e.now));
    }
  }

  lemma OperationReportsNothing(w: World, e: Event)
    requires Inv(w) && Enabled(w, e) && e.Work? && LeaseProtocol.OnLease(e.e) && e.lease.job in w.rows
    requires !Over(w.rows[e.lease.job])
    ensures e.lease.job in Step(w, e).rows && Unreported(Step(w, e).rows[e.lease.job])
  {
    OperationLeavesMail(w.rows, e.lease, e.e, e.configured);
  }

  // No operation on a job lease ends a delivery.
  lemma OperationLeavesMail(rows: Rows, l: LeaseView, e: LeaseProtocol.Event, configured: Option<string>)
    requires LeaseProtocol.OnLease(e) && l.job in rows
    ensures var after := AdapterSimulation.ApplyRow(rows, l, e, configured).rows;
            after == rows || (l.job in after && !Over(after[l.job]))
  {
    if e.Renew? {
      assert Guard(rows, l, e.clock) && rows[l.job].status.Leased() ==> !Over(rows[l.job]);
    }
  }

  lemma JobClaimReportsNothing(w: World, e: Event, id: JobId)
    requires Enabled(w, e) && e.Work? && e.e.Claim? && id in w.rows && !Over(w.rows[id])
    ensures id in Step(w, e).rows && Unreported(Step(w, e).rows[id])
  {
    var now := Instant(e.e.now, e.e.clock);
    var ready := Reclaim(ExpireDeliveries(w.rows, now), now);
    var first := First(DueRows(ready, now));
    assert Unreported(ready[id]);
    if first.Some? { assert first.value in DueRows(ready, now); }
  }

  lemma WorkReportsNothing(w: World, e: Event, id: JobId)
    requires Inv(w) && Enabled(w, e) && e.Work? && id in Step(w, e).rows && (id in w.rows ==> !Over(w.rows[id]))
    ensures Unreported(Step(w, e).rows[id])
  {
    if e.e.Claim? {
      JobClaimKeepsKeys(w.rows, e.e);
      JobClaimReportsNothing(w, e, id);
    } else if LeaseProtocol.OnLease(e.e) && e.lease.job in w.rows {
      assert DeliveryOk(w, e.lease.job, w.rows[e.lease.job]);
      OperationKeepsRow(w, e.lease, e.e, e.configured);
      if e.lease.job == id { OperationReportsNothing(w, e); }
    }
  }

  lemma StepReportsTrue(w: World, e: Event, id: JobId)
    requires Inv(w) && Enabled(w, e) && id in Step(w, e).rows && (id in w.rows ==> ReportTrue(w, id))
    ensures ReportTrue(Step(w, e), id)
  {
    if id in w.rows && Over(w.rows[id]) {
      if !((e.AskAgain? || e.RetryFailed?) && e.id == id) { OverStaysTrue(w, e, id); }
    } else if e.Finish? {
      FinishReports(w, e, id);
    } else {
      OnlyResultsReport(w, e, id);
    }
  }

  // In every run what the owner is told of an email is true.
  lemma {:induction false} ReportsAreTrue(w: World, run: seq<Event>, id: JobId)
    requires Inv(w) && Feasible(w, run) && (forall i <- w.rows :: ReportTrue(w, i)) && id in Exec(w, run).rows
    ensures ReportTrue(Exec(w, run), id)
    decreases |run|
  {
    if run != [] {
      var v := Step(w, run[0]);
      StepKeepsInv(w, run[0]);
      forall i <- v.rows ensures ReportTrue(v, i) { StepReportsTrue(w, run[0], i); }
      ReportsAreTrue(v, run[1..], id);
    }
  }
}
