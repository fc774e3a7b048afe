/** The in-memory artifact store: bytes under a key made of job and file name. */
module Artifacts {
  import opened Domain
  import opened JobStore

  type Bytes = seq<nat>
  type Files = map<string, Bytes>
  type Hash = Bytes -> string

  predicate SafeName(name: string) {
    name != "" && '/' !in name && '\\' !in name && name != "." && name != ".."
  }

  function Key(job: JobId, name: string): string {
    job + "/" + name
  }

  // The key belongs to this job and to no other.
  ghost predicate Owned(job: JobId, key: string) {
    exists name :: SafeName(name) && key == Key(job, name)
  }

  lemma SeparatorInside(a: JobId, m: string, b: JobId, n: string)
    requires Key(a, m) == Key(b, n) && |a| < |b|
    ensures '/' in m
  {
    assert Key(b, n)[|b|] == '/' && Key(a, m)[|b|] == m[|b| - |a| - 1];
  }

  lemma KeyNamesJob(a: JobId, m: string, b: JobId, n: string)
    requires SafeName(m) && SafeName(n) && Key(a, m) == Key(b, n)
    ensures a == b
  {
    if |a| < |b| {
      SeparatorInside(a, m, b, n);
    } else if |b| < |a| {
      SeparatorInside(b, n, a, m);
    } else {
      assert a == Key(a, m)[..|a|] == b;
    }
  }

  lemma OwnedByOne(a: JobId, b: JobId, key: string)
    requires Owned(a, key) && Owned(b, key)
    ensures a == b
  {
    var m :| SafeName(m) && key == Key(a, m);
    var n :| SafeName(n) && key == Key(b, n);
    KeyNamesJob(a, m, b, n);
  }

  function ArtifactOf(job: JobId, name: string, data: Bytes, hash: Hash): Artifact {
    Artifact(Key(job, name), |data|, hash(data), true)
  }

  // What Open finds: the stored bytes, or the reason it refuses.
  datatype Opened = Body(data: Bytes) | Missing | SizeMismatch | ChecksumMismatch

  function Open(files: Files, a: Artifact, hash: Hash): Opened {
    if !a.available || a.key !in files then Missing
    else if |files[a.key]| != a.byteSize then SizeMismatch
    else if hash(files[a.key]) != a.checksum then ChecksumMismatch
    else Body(files[a.key])
  }

  // An artifact opens exactly with the bytes stored for it, if they have its
  // length and its checksum.
  lemma OpensExactly(files: Files, a: Artifact, hash: Hash, data: Bytes)
    ensures Open(files, a, hash) == Body(data) <==>
              && a.available && a.key in files && files[a.key] == data
              && |data| == a.byteSize && hash(data) == a.checksum
  {
  }

  class ArtifactStore {
    var files: Files
    const hash: Hash

    constructor (hash: Hash)
      ensures files == map[] && this.hash == hash
    {
      files, this.hash := map[], hash;
    }

    // What was stored is what Open gives back.
    method Put(job: JobId, name: string, data: Bytes) returns (stored: Option<Artifact>)
      modifies this
      ensures stored == if SafeName(name) && data != [] then Some(ArtifactOf(job, name, data, hash)) else None
      ensures stored.None? ==> files == old(files)
      ensures stored.Some? ==> Owned(job, stored.value.key)
      ensures stored.Some? ==> files == old(files)[stored.value.key := data]
      ensures stored.Some? ==> Open(files, stored.value, hash) == Body(data)
    {
      if !SafeName(name) || data == [] { return None; }
      files := files[Key(job, name) := data];
      return Some(ArtifactOf(job, name, data, hash));
    }

    method Delete(a: Artifact)
      modifies this
      ensures files == old(files) - {a.key}
    {
      files := files - {a.key};
    }
  }
}

/**
  One worker at a time over the in-memory stores, with submissions and the three
  steps of job deletions falling anywhere between its own steps.
*/
module WorkerProtocol {
  import opened Domain
  import opened JobStore
  import opened LeaseProtocol
  import opened Artifacts

  // A deletion reads the job, removes it, then removes its bytes.
  datatype Deletion = Seen(id: JobId, artifact: Option<Artifact>) | Removed(id: JobId,
      artifact: Option<Artifact>) | Over

  // Where the current RunOnce stands.
  datatype Phase =
    | Idle
    | Working(i: nat)                          // the processor runs under lease i
    | AtPersisting(i: nat)                     // the job has reached the persisting stage
    | Stored(i: nat, artifact: Artifact)       // the bytes are stored, nothing is committed
    | Refused(i: nat, artifact: Artifact)      // the store refused the completion
    | Failing(i: nat)                          // an error has to be recorded

  datatype System = System(
    world: World,
    files: Files,
    phase: Phase,
    deletions: seq<Deletion>,
    maxAttempts: nat,
    hash: Hash)

  datatype Step =
    | Submit(id: JobId, createdAt: Time)
    | SeeJob(id: JobId)
    | RemoveJob(d: nat)
    | RemoveBytes(d: nat, works: bool)
    | Begin(now: Time, duration: int, token: Token, clock: Time)
    | Heartbeat(duration: int, clock: Time)
    | Report(stage: Stage, clock: Time)
    | ProcessFailed
    | Persist(clock: Time)
    | Put(name: string, data: Bytes, works: bool)
    | Discard(works: bool)                     // unfit content: delete the bytes, then record the error
    | Commit(contentId: string, now: Time, clock: Time)
    | Clean(works: bool)                       // after a refused completion
    | Record(retryable: bool, category: FailureCategory, next: Time, now: Time, clock: Time)
    | Abandon                                  // RunOnce returns, or the process stops

  ghost predicate Offered(s: System, step: Step) {
    match step
    case Submit(id, _) => id !in s.world.ids
    case RemoveJob(d) => d < |s.deletions| && s.deletions[d].Seen?
    case RemoveBytes(d, _) => d < |s.deletions| && s.deletions[d].Removed?
    case Begin(_, _, token, _) => s.phase.Idle? && token != "" && token !in s.world.tokens
    case Heartbeat(_, _) => s.phase.Working?
    case Report(_, _) => s.phase.Working?
    case ProcessFailed => s.phase.Working?
    case Persist(_) => s.phase.Working?
    case Put(_, _, _) => s.phase.AtPersisting?
    case Discard(_) => s.phase.Stored?
    case Commit(_, _, _) => s.phase.Stored?
    case Clean(_) => s.phase.Refused?
    case Record(_, _, _, _, _) => s.phase.Failing?
    case _ => true
  }

  // Recording an error: the policy of handleProcessingError.
  function RecordEvent(s: System, step: Step): Event
    requires step.Record? && s.phase.Failing? && s.phase.i < |s.world.leases|
  {
    if step.retryable && s.world.leases[s.phase.i].attempt < s.maxAttempts
    then Retry(s.phase.i, step.next, step.clock)
    else GiveUp(s.phase.i, step.category, step.now, step.clock)
  }

  ghost function OnJobs(s: System, e: Event): System
    requires Enabled(s.world, e)
  {
    s.(world := LeaseProtocol.Step(s.world, e))
  }

  ghost function Next(s: System, step: Step): System
    requires Offered(s, step) && PhaseOk(s)
  {
    match step
    case Submit(id, createdAt) => OnJobs(s, Create(id, createdAt))
    case SeeJob(id) =>
      if id !in s.world.jobs then s
      else s.(deletions := s.deletions + [Seen(id, s.world.jobs[id].artifact)])
    case RemoveJob(d) =>
      var seen := s.deletions[d];
      if seen.id !in s.world.jobs then s.(deletions := s.deletions[d := Over])
      else OnJobs(s, Delete(seen.id)).(deletions := s.deletions[d := Removed(seen.id, seen.artifact)])
    case RemoveBytes(d, works) =>
      var removed := s.deletions[d];
      s.(deletions := s.deletions[d := Over],
         files := if works && removed.artifact.Some? then s.files - {removed.artifact.value.key} else s.files)
    case Begin(now, duration, token, clock) =>
      var begun := OnJobs(s, LeaseProtocol.Claim(now, duration, token, clock));
      if |begun.world.leases| == |s.world.leases| then begun else begun.(phase := Working(|s.world.leases|))
    case Heartbeat(duration, clock) => OnJobs(s, Renew(s.phase.i, duration, clock))
    case Report(stage, clock) => OnJobs(s, Stage(s.phase.i, stage, clock))
    case ProcessFailed => s.(phase := Failing(s.phase.i))
    case Persist(clock) =>
      var moved := OnJobs(s, Stage(s.phase.i, Persisting, clock));
      var outcome := SetStage(s.world.jobs, s.world.leases[s.phase.i], Persisting, clock);
      moved.(phase := if outcome.result == Done then AtPersisting(s.phase.i) else Idle)
    case Put(name, data, works) =>
      if !works || !SafeName(name) || data == [] then s.(phase := Failing(s.phase.i))
      else
        var a := ArtifactOf(s.world.leases[s.phase.i].job, name, data, s.hash);
        s.(files := s.files[a.key := data], phase := Stored(s.phase.i, a))
    case Discard(works) =>
      s.(files := if works then s.files - {s.phase.artifact.key} else s.files, phase := Failing(s.phase.i))
    case Commit(contentId, now, clock) =>
      var completion := Completion(contentId, s.phase.artifact);
      var outcome := Complete(s.world.jobs, s.world.leases[s.phase.i], completion, now, clock);
      OnJobs(s, Finish(s.phase.i, completion, now, clock))
        .(phase := if outcome.result == Done then Idle else Refused(s.phase.i, s.phase.artifact))
    case Clean(works) =>
      s.(files := if works then s.files - {s.phase.artifact.key} else s.files, phase := Failing(s.phase.i))
    case Record(_, _, _, _, _) => OnJobs(s, RecordEvent(s, step)).(phase := Idle)
    case Abandon => s.(phase := Idle)
  }

  // ------------------------------------------------------------- invariant

  // The worker's lease is its job's own, as long as the job is there.
  ghost predicate PhaseOk(s: System) {
    !s.phase.Idle? ==>
      && s.phase.i < |s.world.leases|
      && (s.world.leases[s.phase.i].job in s.world.jobs ==> Live(s.world, s.phase.i))
  }

  ghost predicate Kept(s: System, a: Artifact) {
    Open(s.files, a, s.hash).Body?
  }

  // Stored bytes belong to the worker's job and are there while the job is.
  ghost predicate StoredOk(s: System)
    requires PhaseOk(s)
  {
    s.phase.Stored? || s.phase.Refused? ==>
      && Owned(s.world.leases[s.phase.i].job, s.phase.artifact.key)
      && (s.world.leases[s.phase.i].job in s.world.jobs ==> Kept(s, s.phase.artifact))
  }

  ghost predicate JobFileOk(s: System, id: JobId)
    requires id in s.world.jobs
  {
    var j := s.world.jobs[id];
    && (j.status.Ready? <==> j.artifact.Some?) && !j.status.Delivering?
    && (j.artifact.Some? ==> Owned(id, j.artifact.value.key) && Kept(s, j.artifact.value))
  }

  // A deletion that has seen an artifact concerns a ready job, or one that is gone.
  ghost predicate DeletionOk(s: System, d: Deletion) {
    !d.Over? ==>
      && d.id in s.world.ids
      && (d.Removed? ==> d.id !in s.world.jobs)
      && (d.artifact.Some? ==>
            Owned(d.id, d.artifact.value.key) && (d.id in s.world.jobs ==> s.world.jobs[d.id].status.Ready?))
  }

  ghost predicate SystemOk(s: System) {
    && Inv(s.world) && PhaseOk(s) && StoredOk(s)
    && (forall l <- s.world.leases :: l.job in s.world.ids)
    && (forall id <- s.world.jobs :: JobFileOk(s, id))
    && (forall d <- s.deletions :: DeletionOk(s, d))
  }

  // ---------------------------------------------------- the job side

  // An operation through the worker's lease touches no other job, and makes
  // its own job ready only by a completion.
  lemma LeaseEventOnJobs(w: World, e: Event)
    requires Inv(w) && Enabled(w, e) && OnLease(e)
    requires forall l <- w.leases :: l.job in w.ids
    ensures var v := LeaseProtocol.Step(w, e);
            && v.jobs.Keys == w.jobs.Keys && v.ids == w.ids && |v.leases| == |w.leases|
            && (forall l <- v.leases :: l.job in v.ids)
            && v.leases[e.i].job == w.leases[e.i].job
            && (forall id <- w.jobs :: id != w.leases[e.i].job ==> v.jobs[id] == w.jobs[id])
            && (!Live(w, e.i) ==> v.jobs == w.jobs)
  {
    ApplyCases(w.jobs, w.leases[e.i], e);
  }

  // The lease stays live under renewals and stage reports.
  lemma LeaseEventKeepsLive(w: World, e: Event)
    requires Inv(w) && Enabled(w, e) && (e.Renew? || e.Stage?) && Live(w, e.i)
    ensures Live(LeaseProtocol.Step(w, e), e.i)
    ensures var id := w.leases[e.i].job;
            var j, k := w.jobs[id], LeaseProtocol.Step(w, e).jobs[id];
            j.status == k.status && j.artifact == k.artifact
  {
    ApplyCases(w.jobs, w.leases[e.i], e);
  }

  // A lease is live only on a job that is not ready.
  lemma LiveIsNotReady(s: System)
    requires Inv(s.world) && PhaseOk(s) && !s.phase.Idle?
    ensures var id := s.world.leases[s.phase.i].job;
            id in s.world.jobs ==> !s.world.jobs[id].status.Ready?
  {
    var id := s.world.leases[s.phase.i].job;
    if id in s.world.jobs { assert JobOk(s.world.jobs[id]); }
  }

  // A claim leaves ready jobs and artifacts alone.
  lemma ClaimLeavesReady(w: World, e: Event, id: JobId)
    requires Inv(w) && Enabled(w, e) && e.Claim? && id in w.jobs && !w.jobs[id].status.Delivering?
    ensures var v := LeaseProtocol.Step(w, e);
            && id in v.jobs && v.jobs[id].artifact == w.jobs[id].artifact && !v.jobs[id].status.Delivering?
            && (v.jobs[id].status.Ready? <==> w.jobs[id].status.Ready?)
  {
    ClaimCases(w.jobs, e.now, e.duration, e.token, id);
  }

  lemma ClaimOnJobs(s: System, step: Step)
    requires SystemOk(s) && Offered(s, step) && step.Begin?
    ensures SystemOk(Next(s, step))
  {
    var e := LeaseProtocol.Claim(step.now, step.duration, step.token, step.clock);
    var w, v, t := s.world, Next(s, step).world, Next(s, step);
    StepKeepsInv(w, e);
    ClaimKeepsKeys(w.jobs, e.now, e.duration, e.token);
    if |v.leases| > |w.leases| { NewLeaseFetches(w, e); }
    forall id <- v.jobs ensures JobFileOk(t, id) {
      assert JobFileOk(s, id);
      ClaimLeavesReady(w, e, id);
    }
    forall d <- t.deletions ensures DeletionOk(t, d) {
      assert DeletionOk(s, d);
      if !d.Over? && d.id in w.jobs {
        assert JobFileOk(s, d.id);
        ClaimLeavesReady(w, e, d.id);
      }
    }
  }

  // Renewals, stage reports and the move to persisting.
  lemma LeaseStepsKeep(s: System, t: System, e: Event)
    requires SystemOk(s) && (s.phase.Working? || s.phase.AtPersisting?)
    requires (e.Renew? || e.Stage?) && e.i == s.phase.i
    requires t == OnJobs(s, e).(phase := t.phase)
    requires t.phase in {Idle, Working(e.i), AtPersisting(e.i)}
    ensures SystemOk(t)
  {
    var w, v := s.world, t.world;
    StepKeepsInv(w, e);
    LeaseEventOnJobs(w, e);
    if Live(w, e.i) { LeaseEventKeepsLive(w, e); }
    forall id <- v.jobs ensures JobFileOk(t, id) { assert JobFileOk(s, id); }
    forall d <- t.deletions ensures DeletionOk(t, d) { assert DeletionOk(s, d); }
  }

  lemma CommitKeeps(s: System, step: Step)
    requires SystemOk(s) && Offered(s, step) && step.Commit?
    ensures SystemOk(Next(s, step))
  {
    var t := Next(s, step);
    var completion := Completion(step.contentId, s.phase.artifact);
    var e := Finish(s.phase.i, completion, step.now, step.clock);
    var w, id := s.world, s.world.leases[s.phase.i].job;
    StepKeepsInv(w, e);
    LeaseEventOnJobs(w, e);
    LiveIsNotReady(s);
    CommitOutcome(w, e);
    forall o <- t.world.jobs ensures JobFileOk(t, o) { assert JobFileOk(s, o); }
    forall d <- t.deletions ensures DeletionOk(t, d) { assert DeletionOk(s, d); }
  }

  // A completion makes the job ready with its artifact, or changes nothing.
  lemma CommitOutcome(w: World, e: Event)
    requires Inv(w) && Enabled(w, e) && e.Finish?
    ensures var v, id := LeaseProtocol.Step(w, e), w.leases[e.i].job;
            if Complete(w.jobs, w.leases[e.i], e.completion, e.now, e.clock).result == Done
            then id in v.jobs && v.jobs[id].status.Ready? && v.jobs[id].artifact == Some(e.completion.artifact)
            else v.jobs == w.jobs && v.leases == w.leases
  {
  }

  lemma RecordKeeps(s: System, step: Step)
    requires SystemOk(s) && Offered(s, step) && step.Record?
    ensures SystemOk(Next(s, step))
    ensures Policed(s.world, RecordEvent(s, step), s.maxAttempts)
  {
    var t, e := Next(s, step), RecordEvent(s, step);
    StepKeepsInv(s.world, e);
    LeaseEventOnJobs(s.world, e);
    LiveIsNotReady(s);
    RecordOutcome(s.world, e);
    forall id <- t.world.jobs ensures JobFileOk(t, id) { assert JobFileOk(s, id); }
    forall d <- t.deletions ensures DeletionOk(t, d) { assert DeletionOk(s, d); }
  }

  lemma RecordOutcome(w: World, e: Event)
    requires Inv(w) && Enabled(w, e) && (e.Retry? || e.GiveUp?)
    ensures var v, id := LeaseProtocol.Step(w, e), w.leases[e.i].job;
            v.jobs == w.jobs
            || (id in v.jobs && Live(w, e.i) && (v.jobs[id].status.Queued? || v.jobs[id].status.Failed?)
                && v.jobs[id].artifact == w.jobs[id].artifact)
  {
  }

  // ---------------------------------------------------- the file side

  // Bytes change only under the key of a job that is not ready.
  lemma FilesKeep(s: System, t: System, owner: JobId, key: string)
    requires SystemOk(s) && t == s.(files := t.files, phase := t.phase)
    requires Owned(owner, key) && (owner in s.world.jobs ==> !s.world.jobs[owner].status.Ready?)
    requires forall k :: k != key ==> (k in t.files <==> k in s.files) && (k in t.files ==> t.files[k] == s.files[k])
    ensures forall id <- t.world.jobs :: JobFileOk(t, id)
  {
    forall id <- t.world.jobs ensures JobFileOk(t, id) {
      assert JobFileOk(s, id);
      var j := s.world.jobs[id];
      if j.artifact.Some? && j.artifact.value.key == key { OwnedByOne(id, owner, key); }
    }
  }

  lemma FileStepsKeep(s: System, step: Step)
    requires SystemOk(s) && Offered(s, step) && (step.Put? || step.Discard? || step.Clean?)
    ensures SystemOk(Next(s, step))
  {
    var t := Next(s, step);
    LiveIsNotReady(s);
    var owner := s.world.leases[s.phase.i].job;
    var key := if step.Put? then Key(owner, step.name) else s.phase.artifact.key;
    if t.files != s.files {
      FilesKeep(s, t, owner, key);
    } else {
      forall id <- t.world.jobs ensures JobFileOk(t, id) { assert JobFileOk(s, id); }
    }
    forall d <- t.deletions ensures DeletionOk(t, d) { assert DeletionOk(s, d); }
  }

  // ---------------------------------------------------- deletions

  lemma DeletionStepsKeep(s: System, step: Step)
    requires SystemOk(s) && Offered(s, step) && (step.SeeJob? || step.RemoveJob?)
    ensures SystemOk(Next(s, step))
  {
    var t := Next(s, step);
    if step.RemoveJob? {
      assert DeletionOk(s, s.deletions[step.d]);
      if s.deletions[step.d].id in s.world.jobs { StepKeepsInv(s.world, Delete(s.deletions[step.d].id)); }
    }
    forall id <- t.world.jobs ensures JobFileOk(t, id) { assert JobFileOk(s, id); }
    forall d <- t.deletions ensures DeletionOk(t, d) {
      if d in s.deletions { assert DeletionOk(s, d); }
      if step.SeeJob? && step.id in s.world.jobs { assert JobFileOk(s, step.id); }
    }
  }

  lemma RemoveBytesKeeps(s: System, step: Step)
    requires SystemOk(s) && Offered(s, step) && step.RemoveBytes?
    ensures SystemOk(Next(s, step))
  {
    var t := Next(s, step);
    var removed := s.deletions[step.d];
    assert DeletionOk(s, removed);
    if t.files != s.files {
      var key := removed.artifact.value.key;
      FilesKeep(s, s.(files := t.files), removed.id, key);
      if (s.phase.Stored? || s.phase.Refused?) && s.phase.artifact.key == key {
        OwnedByOne(removed.id, s.world.leases[s.phase.i].job, key);
      }
    }
    forall id <- t.world.jobs ensures JobFileOk(t, id) {
      assert JobFileOk(s, id) && JobFileOk(s.(files := t.files), id);
    }
    forall d <- t.deletions ensures DeletionOk(t, d) {
      if d in s.deletions { assert DeletionOk(s, d); }
    }
  }

  lemma SubmitKeeps(s: System, step: Step)
    requires SystemOk(s) && Offered(s, step) && step.Submit?
    ensures SystemOk(Next(s, step))
  {
    var t := Next(s, step);
    StepKeepsInv(s.world, Create(step.id, step.createdAt));
    forall id <- t.world.jobs ensures JobFileOk(t, id) {
      if id in s.world.jobs { assert JobFileOk(s, id); }
    }
    forall d <- t.deletions ensures DeletionOk(t, d) { assert DeletionOk(s, d); }
  }

  lemma {:induction false} StepKeepsSystem(s: System, step: Step)
    requires SystemOk(s) && Offered(s, step)
    ensures SystemOk(Next(s, step))
  {
    var t := Next(s, step);
    match step
    case Submit(_, _) => SubmitKeeps(s, step);
    case SeeJob(_) => DeletionStepsKeep(s, step);
    case RemoveJob(_) => DeletionStepsKeep(s, step);
    case RemoveBytes(_, _) => RemoveBytesKeeps(s, step);
    case Begin(_, _, _, _) => ClaimOnJobs(s, step);
    case Heartbeat(duration, clock) => LeaseStepsKeep(s, t, Renew(s.phase.i, duration, clock));
    case Report(stage, clock) => LeaseStepsKeep(s, t, Stage(s.phase.i, stage, clock));
    case Persist(clock) => LeaseStepsKeep(s, t, Stage(s.phase.i, Persisting, clock));
    case Put(_, _, _) => FileStepsKeep(s, step);
    case Discard(_) => FileStepsKeep(s, step);
    case Clean(_) => FileStepsKeep(s, step);
    case Commit(_, _, _) => CommitKeeps(s, step);
    case Record(_, _, _, _, _) => RecordKeeps(s, step);
    case _ =>
      forall id <- t.world.jobs ensures JobFileOk(t, id) { assert JobFileOk(s, id); }
      forall d <- t.deletions ensures DeletionOk(t, d) { assert DeletionOk(s, d); }
  }

  // ------------------------------------------------------------------ runs

  ghost predicate Possible(s: System, run: seq<Step>)
    requires SystemOk(s)
    decreases |run|
  {
    run == [] ||
      (Offered(s, run[0]) && (StepKeepsSystem(s, run[0]); Possible(Next(s, run[0]), run[1..])))
  }

  ghost function After(s: System, run: seq<Step>): (t: System)
    requires SystemOk(s) && Possible(s, run)
    ensures SystemOk(t)
    decreases |run|
  {
    if run == [] then s
    else
      StepKeepsSystem(s, run[0]);
      After(Next(s, run[0]), run[1..])
  }

  lemma {:induction false} Extend(s: System, run: seq<Step>, step: Step)
    requires SystemOk(s) && Possible(s, run) && Offered(After(s, run), step)
    ensures Possible(s, run + [step])
    ensures After(s, run + [step]) == Next(After(s, run), step)
    decreases |run|
  {
    if run == [] {
      assert run + [step] == [step];
      StepKeepsSystem(s, step);
    } else {
      StepKeepsSystem(s, run[0]);
      Extend(Next(s, run[0]), run[1..], step);
      assert (run + [step])[1..] == run[1..] + [step];
    }
  }

  ghost function Empty(maxAttempts: nat, hash: Hash): (s: System)
    ensures SystemOk(s)
  {
    System(LeaseProtocol.START, map[], Idle, [], maxAttempts, hash)
  }

  // With one worker at a time, and whatever expires, fails or is deleted in
  // between, opening the artifact of a ready job gives its bytes.
  lemma {:induction false} ReadyJobsOpen(maxAttempts: nat, hash: Hash, run: seq<Step>, id: JobId)
    requires Possible(Empty(maxAttempts, hash), run)
    ensures var s := After(Empty(maxAttempts, hash), run);
            id in s.world.jobs && s.world.jobs[id].status.Ready? ==>
              && s.world.jobs[id].artifact.Some?
              && Open(s.files, s.world.jobs[id].artifact.value, hash).Body?
  {
    SameHash(Empty(maxAttempts, hash), run);
    var s := After(Empty(maxAttempts, hash), run);
    if id in s.world.jobs { assert JobFileOk(s, id); }
  }

  // An undisturbed deletion removes the job and the bytes of its artifact.
  lemma DeletionRemoves(s: System, id: JobId)
    requires SystemOk(s) && id in s.world.jobs
    ensures Offered(s, SeeJob(id))
    ensures var d, seen := |s.deletions|, Next(s, SeeJob(id));
            SystemOk(seen) && Offered(seen, RemoveJob(d))
    ensures var d, removed := |s.deletions|, Next(Next(s, SeeJob(id)), RemoveJob(|s.deletions|));
            && SystemOk(removed) && Offered(removed, RemoveBytes(d, true))
            && var t := Next(removed, RemoveBytes(d, true));
               (&& t.world.jobs == s.world.jobs - {id} && t.deletions[d] == Over
                && t.files == if s.world.jobs[id].artifact.Some? then s.files - {s.world.jobs[id].artifact.value.key} else s.files)
  {
    var d, seen := |s.deletions|, Next(s, SeeJob(id));
    StepKeepsSystem(s, SeeJob(id));
    StepKeepsSystem(seen, RemoveJob(d));
  }

  lemma {:induction false} SameHash(s: System, run: seq<Step>)
    requires SystemOk(s) && Possible(s, run)
    ensures After(s, run).hash == s.hash
    decreases |run|
  {
    if run != [] {
      StepKeepsSystem(s, run[0]);
      SameHash(Next(s, run[0]), run[1..]);
    }
  }
}

/** RunOnce itself, over the in-memory stores. */
module Workers {
  import opened Domain
  import opened JobStore
  import opened LeaseProtocol
  import opened Leases
  import MemoryStore
  import opened Artifacts
  import opened WorkerProtocol

  datatype Processed = LostLease | ProcessError(retryable: bool, category: FailureCategory) | Result(valid: bool,
      pdf: Bytes)

  // What a run meets: the steps of others falling into its gaps, the answers of
  // the processor and of the storage, and the clock at each operation.
  datatype Meeting = Meeting(
    now: Time, duration: int, token: Token, claimClock: Time,
    during: seq<Step>,
    processed: Processed,
    persistClock: Time, beforePut: seq<Step>,
    name: string, putWorks: bool, beforeCommit: seq<Step>,
    contentId: Option<string>, discardWorks: bool,
    commitClock: Time, cancelled: bool, beforeClean: seq<Step>, cleanWorks: bool,
    beforeRecord: seq<Step>, recordClock: Time)

  datatype Outcome = NothingDue | GaveUp | NotPersisted | Recorded(result: JobStore.Result) | Committed

  // Steps that others may take at any moment; under the processor also its own
  // heartbeats and stage reports.
  predicate Others(step: Step) {
    step.Submit? || step.SeeJob? || step.RemoveJob? || step.RemoveBytes?
  }

  // Bytes under the keys of one job are the same.
  ghost predicate SameBytes(id: JobId, before: Files, after: Files) {
    forall key | Owned(id, key) :: (key in before <==> key in after) && (key in before ==> after[key] == before[key])
  }

  // What steps of others leave: no bytes are added, and a job known before that
  // is still there is unchanged and keeps its bytes.
  ghost predicate Left(drawn: set<JobId>, jobs: Jobs, files: Files, jobs2: Jobs, files2: Files) {
    && files2.Keys <= files.Keys
    && forall id <- drawn :: id in jobs2 ==> id in jobs && jobs2[id] == jobs[id] && SameBytes(id, files, files2)
  }

  lemma LeftTwice(drawn: set<JobId>, jobs: Jobs, files: Files, drawn1: set<JobId>, jobs1: Jobs, files1: Files,
      jobs2: Jobs, files2: Files)
    requires Left(drawn, jobs, files, jobs1, files1) && Left(drawn1, jobs1, files1, jobs2, files2) && drawn <= drawn1
    ensures Left(drawn, jobs, files, jobs2, files2)
  {
    forall id <- drawn | id in jobs2 ensures id in jobs && jobs2[id] == jobs[id] && SameBytes(id, files, files2) {
      assert SameBytes(id, files1, files2) && SameBytes(id, files, files1);
    }
  }

  lemma RemovedElsewhere(files: Files, a: Artifact, owner: JobId, id: JobId)
    requires Owned(owner, a.key) && owner != id
    ensures SameBytes(id, files, files - {a.key})
  {
    forall key | Owned(id, key) ensures key != a.key {
      if key == a.key { OwnedByOne(owner, id, key); }
    }
  }

  // The log has grown by steps of others alone.
  ghost predicate OthersFollow(log: seq<Step>, log2: seq<Step>) {
    log <= log2 && forall k | |log| <= k < |log2| :: Others(log2[k])
  }

  // How handleProcessingError records an error through a lease.
  function RecordedError(jobs: Jobs, l: LeaseView, maxAttempts: nat, retryable: bool, category: FailureCategory,
      now: Time, clock: Time): JobStore.Outcome
  {
    if retryable && l.attempt < maxAttempts then Requeue(jobs, l, now + l.attempt * BACKOFF, clock)
    else Fail(jobs, l, category, now, clock)
  }

  const BACKOFF: Time := 250_000_000

  // The error is recorded exactly if the lease is usable: below the attempt
  // limit a retryable one queues the job again after a quarter of a second for
  // each attempt, every other one ends it.
  lemma RecordedExactly(jobs: Jobs, l: LeaseView, maxAttempts: nat, retryable: bool, category: FailureCategory,
      now: Time, clock: Time)
    ensures var o := RecordedError(jobs, l, maxAttempts, retryable, category, now, clock);
            && (o.result == Done <==> Usable(jobs, l, clock))
            && (o.result != Done ==> o.result == JobStore.LeaseLost && o.jobs == jobs)
    ensures var o := RecordedError(jobs, l, maxAttempts, retryable, category, now, clock);
            o.result == Done ==>
              && var j, k := jobs[l.job], o.jobs[l.job];
              && o.jobs == jobs[l.job := k] && k.token == "" && k.leaseUntil == 0 && k.attempts == j.attempts
              && if retryable && l.attempt < maxAttempts
                 then k.status.Queued? && k.nextAttemptAt == now + l.attempt * 250_000_000
                 else k.status.Failed? && k.failure == Some(category.Normalized()) && k.completedAt == Some(now)
  {
  }

  // The error that an answer of the processor stands for, and whether another
  // attempt may follow; an unusable result is never tried again.
  function Failure(answer: Processed): Option<(bool, FailureCategory)> {
    match answer
    case LostLease => None
    case ProcessError(retryable, category) => Some((retryable, category))
    case Result(valid, pdf) =>
      if !valid then Some((false, AIInvalidResponse)) else if pdf == [] then Some((false, FormatFailed)) else None
  }

  // The stage and the expiry under which a worker holds its job.
  type Held = Option<(Stage, Time)>

  function HeldIn(jobs: Jobs, l: LeaseView): Held {
    if && l.job in jobs && jobs[l.job].status.Processing? && jobs[l.job].token == l.token
       && jobs[l.job].version == l.version
    then Some((jobs[l.job].stage, jobs[l.job].leaseUntil)) else None
  }

  // What a step of the processor makes of it; None where others step in, or
  // the step comes too late or goes where no stage leads.
  function Onward(held: Held, step: Step): Held {
    if held.None? then None
    else
      var (stage, until) := held.value;
      match step
      case Heartbeat(duration, clock) =>
        if clock < until then Some((stage, until + (if duration <= 0 then 300_000_000_000 else duration))) else None
      case Report(next, clock) => if clock < until && stage.CanTransitionTo(next) then Some((next, until)) else None
      case _ => None
  }

  function OnwardAll(held: Held, steps: seq<Step>): Held
    decreases |steps|
  {
    if steps == [] then held else Onward(OnwardAll(held, steps[..|steps| - 1]), steps[|steps| - 1])
  }

  // A completion that these jobs accept.
  predicate CanCommit(jobs: Jobs, l: LeaseView, contentId: string, clock: Time) {
    && contentId != "" && l.job in jobs && jobs[l.job].status.Processing? && jobs[l.job].stage == Persisting
    && jobs[l.job].token == l.token && jobs[l.job].version == l.version && jobs[l.job].leaseUntil > clock
  }

  // The lease once its job has reached the persisting stage.
  function Advanced(l: LeaseView, until: Time): LeaseView {
    l.(version := l.version + 1, expiresAt := until, stage := Persisting)
  }

  // The jobs once this lease has moved its job to the persisting stage, if it can.
  function JobsMoved(jobs: Jobs, l: LeaseView, clock: Time): Jobs {
    var held := HeldIn(jobs, l);
    if held.Some? && clock < held.value.1 && held.value.0.CanTransitionTo(Persisting)
    then jobs[l.job := jobs[l.job].(stage := Persisting, version := l.version + 1)] else jobs
  }

  // Jobs known before that are still there are unchanged.
  ghost predicate JobsLeft(known: set<JobId>, jobs: Jobs, jobs2: Jobs) {
    forall id <- known :: id in jobs2 ==> id in jobs && jobs2[id] == jobs[id]
  }

  // How a run with a usable result ends: at once, or with an error recorded,
  // where a lost lease can count as the end.
  datatype Verdict = Ends(outcome: Outcome) | Records(retryable: bool, category: FailureCategory, quietly: bool)

  function Judged(held: Held, m: Meeting, commits: bool): Verdict {
    if held.None? || held.value.1 <= m.persistClock then Ends(GaveUp)
    else if !held.value.0.CanTransitionTo(Persisting) then Ends(NotPersisted)
    else if !m.putWorks || !SafeName(m.name) then Records(true, StorageFailed, false)
    else if m.contentId.None? then Records(false, AIInvalidResponse, false)
    else if commits then Ends(Committed)
    else if m.cancelled then Ends(GaveUp)
    else Records(true, StorageFailed, true)
  }

  // The outcome is the judged one; a recorded error is that of the lease on the
  // jobs as others left them.
  ghost predicate Meets(verdict: Verdict, outcome: Outcome, before: Jobs, l: LeaseView, maxAttempts: nat, m: Meeting,
      after: Jobs)
  {
    match verdict
    case Ends(o) => outcome == o
    case Records(retryable, category, quietly) =>
      var recorded := RecordedError(before, l, maxAttempts, retryable, category, m.now, m.recordClock);
      && after == recorded.jobs
      && outcome == if quietly && recorded.result == JobStore.LeaseLost then GaveUp else Recorded(recorded.result)
  }

  // The verdict on a usable result, with the jobs as others left them at the
  // commit and when the error was recorded.
  ghost predicate Persisted(start: Jobs, l: LeaseView, m: Meeting, known: set<JobId>, atCommit: Jobs, before: Jobs,
      outcome: Outcome, maxAttempts: nat, after: Jobs)
  {
    var held := HeldIn(start, l);
    var moved := Advanced(l, if held.Some? then held.value.1 else 0);
    var commits := m.contentId.Some? && CanCommit(atCommit, moved, m.contentId.value, m.commitClock);
    && Meets(Judged(held, m, commits), outcome, before, moved, maxAttempts, m, after)
    && JobsLeft(known, JobsMoved(start, l, m.persistClock), atCommit) && JobsLeft(known, atCommit, before)
    && (m.beforePut == [] && m.beforeCommit == [] ==> atCommit == JobsMoved(start, l, m.persistClock))
  }

  lemma NotMoved(start: Jobs, l: LeaseView, m: Meeting, known: set<JobId>, outcome: Outcome, maxAttempts: nat)
    requires var held := HeldIn(start, l);
             outcome == if held.None? || held.value.1 <= m.persistClock then GaveUp else NotPersisted
    requires JobsMoved(start, l, m.persistClock) == start
    requires var held := HeldIn(start, l);
             held.None? || held.value.1 <= m.persistClock || !held.value.0.CanTransitionTo(Persisting)
    ensures Persisted(start, l, m, known, start, start, outcome, maxAttempts, start)
  {
  }

  // The verdict once the job has reached persisting and others have stepped in.
  ghost predicate Settled(verdict: Verdict, m: Meeting, moved: LeaseView, known: set<JobId>, jobs: Jobs,
      atCommit: Jobs, before: Jobs, outcome: Outcome, maxAttempts: nat, after: Jobs)
  {
    && Meets(verdict, outcome, before, moved, maxAttempts, m, after)
    && JobsLeft(known, jobs, atCommit) && JobsLeft(known, atCommit, before)
  }

  function OnceStored(m: Meeting, moved: LeaseView, atCommit: Jobs): Verdict {
    if m.contentId.None? then Records(false, AIInvalidResponse, false)
    else if CanCommit(atCommit, moved, m.contentId.value, m.commitClock) then Ends(Committed)
    else if m.cancelled then Ends(GaveUp)
    else Records(true, StorageFailed, true)
  }

  lemma MovedThen(start: Jobs, l: LeaseView, m: Meeting, known: set<JobId>, verdict: Verdict, jobs: Jobs,
      atCommit: Jobs, before: Jobs, outcome: Outcome, maxAttempts: nat, after: Jobs)
    requires HeldIn(start, l).Some? && m.persistClock < HeldIn(start, l).value.1
    requires HeldIn(start, l).value.0.CanTransitionTo(Persisting)
    requires JobsLeft(known, JobsMoved(start, l, m.persistClock), jobs)
    requires m.beforePut == [] ==> jobs == JobsMoved(start, l, m.persistClock)
    requires var moved := Advanced(l, HeldIn(start, l).value.1);
             && Settled(verdict, m, moved, known, jobs, atCommit, before, outcome, maxAttempts, after)
             && verdict == if !m.putWorks || !SafeName(m.name) then Records(true, StorageFailed, false)
                           else OnceStored(m, moved, atCommit)
    requires m.beforeCommit == [] ==> atCommit == jobs
    ensures Persisted(start, l, m, known, atCommit, before, outcome, maxAttempts, after)
  {
  }

  // What a run has met: the jobs and the lease when the processor was done, the
  // jobs known then, and those at the commit and when an error was recorded.
  datatype Worked = Worked(start: Jobs, l: LeaseView, known: set<JobId>, atCommit: Jobs, before: Jobs)

  // Nobody else steps in, every clock is before the expiry, the processor has
  // reported its stages up to formatting and its result can be stored.
  predicate Undisturbed(m: Meeting) {
    var held := OnwardAll(Some((Fetching, m.now + (if m.duration <= 0 then 300_000_000_000 else m.duration))), m.during);
    && held.Some? && held.value.0 == Formatting && m.persistClock < held.value.1 && m.commitClock < held.value.1
    && m.beforePut == [] && m.beforeCommit == []
    && m.processed.Result? && m.processed.valid && m.processed.pdf != []
    && m.name != "" && '/' !in m.name && '\\' !in m.name && m.name != "." && m.name != ".." && m.putWorks
    && m.contentId.Some? && m.contentId.value != ""
  }

  lemma UndisturbedCommits(start: Jobs, l: LeaseView, m: Meeting, known: set<JobId>, atCommit: Jobs, before: Jobs,
      outcome: Outcome, maxAttempts: nat, after: Jobs)
    requires Undisturbed(m) && Persisted(start, l, m, known, atCommit, before, outcome, maxAttempts, after)
    requires var more := if m.duration <= 0 then 300_000_000_000 else m.duration;
             HeldIn(start, l) == OnwardAll(Some((Fetching, m.now + more)), m.during)
    ensures outcome.Committed?
  {
    var held := HeldIn(start, l).value;
    assert CanCommit(JobsMoved(start, l, m.persistClock), Advanced(l, held.1), m.contentId.value, m.commitClock);
  }

  lemma WorkedCommits(m: Meeting, w: Worked, outcome: Outcome, maxAttempts: nat, after: Jobs)
    requires var more := if m.duration <= 0 then 300_000_000_000 else m.duration;
             var held := OnwardAll(Some((Fetching, m.now + more)), m.during);
             held.Some? ==> HeldIn(w.start, w.l) == held
    requires m.processed.Result? && Failure(m.processed).None? ==>
               Persisted(w.start, w.l, m, w.known, w.atCommit, w.before, outcome, maxAttempts, after)
    ensures Undisturbed(m) ==> outcome.Committed?
  {
    if Undisturbed(m) {
      UndisturbedCommits(w.start, w.l, m, w.known, w.atCommit, w.before, outcome, maxAttempts, after);
    }
  }

  lemma ClaimIsHeld(jobs: Jobs, claimed: Jobs, l: LeaseView, now: Time, duration: int, token: Token)
    requires JobsOk(jobs) && MemoryStore.ClaimedFor(jobs, claimed, l, now, duration, token)
    ensures HeldIn(claimed, l) == Some((Fetching, now + (if duration <= 0 then 300_000_000_000 else duration)))
  {
  }

  class Worker {
    const store: MemoryStore.Store
    const artifacts: ArtifactStore
    const maxAttempts: nat
    var drawn: set<JobId>             // job identifiers drawn so far
    var deletions: seq<Deletion>      // the deletions under way
    ghost const start: System
    ghost var log: seq<Step>
    ghost var sys: System

    // The objects are in the state the protocol reaches by the logged steps.
    ghost predicate Valid()
      reads this, store, artifacts
    {
      && Logged()
      && sys.world.jobs == store.jobs && sys.files == artifacts.files && sys.hash == artifacts.hash
      && sys.world.ids == drawn && sys.deletions == deletions && sys.maxAttempts == maxAttempts
    }

    ghost predicate Logged()
      reads this
    {
      SystemOk(start) && Possible(start, log) && sys == After(start, log)
    }

    // The lease object shows what the protocol knows of the worker's lease.
    ghost predicate Shows(lease: Lease)
      reads this, lease
    {
      && !sys.phase.Idle? && sys.phase.i < |sys.world.leases|
      && lease.View() == sys.world.leases[sys.phase.i]
    }

    constructor (store: MemoryStore.Store, artifacts: ArtifactStore, maxAttempts: nat)
      requires store.jobs == map[] && artifacts.files == map[]
      ensures Valid() && sys.phase.Idle?
      ensures this.store == store && this.artifacts == artifacts && this.maxAttempts == maxAttempts
    {
      this.store, this.artifacts, this.maxAttempts := store, artifacts, maxAttempts;
      drawn, deletions := {}, [];
      start, log := Empty(maxAttempts, artifacts.hash), [];
      sys := Empty(maxAttempts, artifacts.hash);
    }

    // In every reachable state of the objects a ready job's artifact opens.
    lemma ReadyOpens(id: JobId)
      requires Valid() && id in store.jobs && store.jobs[id].status.Ready?
      ensures store.jobs[id].artifact.Some?
      ensures Open(artifacts.files, store.jobs[id].artifact.value, artifacts.hash).Body?
    {
      assert JobFileOk(sys, id);
    }

    ghost method Note(step: Step)
      requires Logged() && Offered(sys, step)
      modifies this`log, this`sys
      ensures Logged() && log == old(log) + [step] && sys == Next(old(sys), step)
    {
      Extend(start, log, step);
      log := log + [step];
      sys := Next(sys, step);
    }

    // One step of somebody else; a step that cannot be taken now is skipped.
    method Other(step: Step)
      requires Valid() && Others(step)
      modifies this, store, artifacts
      ensures Valid() && Quiet(old(sys), sys) && OthersFollow(old(log), log) && old(drawn) <= drawn
      ensures Left(old(drawn), old(store.jobs), old(artifacts.files), store.jobs, artifacts.files)
    {
      match step {
        case Submit(id, createdAt) =>
          if id in drawn { return; }
          Note(step);
          store.jobs := store.jobs[id := NewJob(createdAt)];
          drawn := drawn + {id};
        case SeeJob(id) =>
          Note(step);
          if id in store.jobs {
            deletions := deletions + [Seen(id, store.jobs[id].artifact)];
          }
        case RemoveJob(d) =>
          if d >= |deletions| || !deletions[d].Seen? { return; }
          Note(step);
          var seen := deletions[d];
          deletions := deletions[d := if seen.id in store.jobs then Removed(seen.id, seen.artifact) else Over];
          store.jobs := store.jobs - {seen.id};
        case RemoveBytes(d, works) =>
          if d >= |deletions| || !deletions[d].Removed? { return; }
          EraseBytes(d, works);
      }
    }

    // The last step of a deletion: the job is gone, and so are its bytes if the
    // storage does its work.
    method EraseBytes(d: nat, works: bool)
      requires Valid() && d < |deletions| && deletions[d].Removed?
      modifies this, artifacts
      ensures Valid() && Quiet(old(sys), sys) && OthersFollow(old(log), log) && old(drawn) <= drawn
      ensures Left(old(drawn), store.jobs, old(artifacts.files), store.jobs, artifacts.files)
    {
      var removed := deletions[d];
      assert DeletionOk(sys, removed);
      if removed.artifact.Some? {
        forall id <- store.jobs ensures SameBytes(id, artifacts.files, artifacts.files - {removed.artifact.value.key}) {
          RemovedElsewhere(artifacts.files, removed.artifact.value, removed.id, id);
        }
      }
      Note(RemoveBytes(d, works));
      deletions := deletions[d := Over];
      if works && removed.artifact.Some? {
        artifacts.Delete(removed.artifact.value);
      }
    }

    method Interfere(steps: seq<Step>)
      requires Valid() && forall step <- steps :: Others(step)
      modifies this, store, artifacts
      ensures Valid() && Quiet(old(sys), sys) && OthersFollow(old(log), log) && old(drawn) <= drawn
      ensures Left(old(drawn), old(store.jobs), old(artifacts.files), store.jobs, artifacts.files)
      ensures steps == [] ==> store.jobs == old(store.jobs)
    {
      for k := 0 to |steps|
        invariant Valid() && Quiet(old(sys), sys) && OthersFollow(old(log), log) && old(drawn) <= drawn
        invariant Left(old(drawn), old(store.jobs), old(artifacts.files), store.jobs, artifacts.files)
        invariant k == 0 ==> store.jobs == old(store.jobs)
      {
        ghost var drawn1, jobs1, files1 := drawn, store.jobs, artifacts.files;
        Other(steps[k]);
        LeftTwice(old(drawn), old(store.jobs), old(artifacts.files), drawn1, jobs1, files1, store.jobs, artifacts.files);
      }
    }

    method Renew(lease: Lease, duration: int, clock: Time)
      requires Valid() && Shows(lease) && sys.phase.Working?
      modifies this, store, lease
      ensures Valid() && Shows(lease) && sys.phase == old(sys.phase) && log == old(log) + [Heartbeat(duration, clock)]
      ensures var next := Onward(old(HeldIn(store.jobs, lease.View())), Heartbeat(duration, clock));
              next.Some? ==> HeldIn(store.jobs, lease.View()) == next
    {
      Note(Heartbeat(duration, clock));
      var result := store.RenewLease(lease, duration, clock);
    }

    method ReportStage(lease: Lease, stage: Stage, clock: Time)
      requires Valid() && Shows(lease) && sys.phase.Working?
      modifies this, store, lease
      ensures Valid() && Shows(lease) && sys.phase == old(sys.phase) && log == old(log) + [Report(stage, clock)]
      ensures var next := Onward(old(HeldIn(store.jobs, lease.View())), Report(stage, clock));
              next.Some? ==> HeldIn(store.jobs, lease.View()) == next
    {
      Note(Report(stage, clock));
      var result := store.SetStage(lease, stage, clock);
    }

    method ProcessorStep(step: Step, lease: Lease)
      requires Valid() && Shows(lease) && sys.phase.Working?
      requires Others(step) || step.Heartbeat? || step.Report?
      modifies this, store, artifacts, lease
      ensures Valid() && Shows(lease) && sys.phase == old(sys.phase) && old(log) <= log
      ensures artifacts.files.Keys <= old(artifacts.files.Keys)
      ensures var next := Onward(old(HeldIn(store.jobs, lease.View())), step);
              next.Some? ==> HeldIn(store.jobs, lease.View()) == next
    {
      if step.Heartbeat? {
        Renew(lease, step.duration, step.clock);
      } else if step.Report? {
        ReportStage(lease, step.stage, step.clock);
      } else {
        Other(step);
      }
    }

    // While the processor runs, heartbeats and stage reports go through its lease.
    method Processing(steps: seq<Step>, lease: Lease)
      requires Valid() && Shows(lease) && sys.phase.Working?
      requires forall step <- steps :: Others(step) || step.Heartbeat? || step.Report?
      modifies this, store, artifacts, lease
      ensures Valid() && Shows(lease) && sys.phase == old(sys.phase) && old(log) <= log
      ensures artifacts.files.Keys <= old(artifacts.files.Keys)
      ensures var held := OnwardAll(old(HeldIn(store.jobs, lease.View())), steps);
              held.Some? ==> HeldIn(store.jobs, lease.View()) == held
    {
      ghost var start := HeldIn(store.jobs, lease.View());
      for k := 0 to |steps|
        invariant Valid() && Shows(lease) && sys.phase == old(sys.phase) && old(log) <= log
        invariant artifacts.files.Keys <= old(artifacts.files.Keys)
        invariant OnwardAll(start, steps[..k]).Some? ==> HeldIn(store.jobs, lease.View()) == OnwardAll(start, steps[..k])
      {
        assert steps[..k + 1][..k] == steps[..k];
        ProcessorStep(steps[k], lease);
      }
      assert steps[..|steps|] == steps;
    }

    // A retryable error below the attempt limit queues the job again, any other
    // one ends it.
    method RecordError(lease: Lease, retryable: bool, category: FailureCategory, now: Time, clock: Time)
      returns (result: JobStore.Result)
      requires Valid() && Shows(lease) && sys.phase.Failing?
      modifies this, store, lease
      ensures Valid() && sys.phase.Idle? && old(log) <= log
      ensures JobStore.Outcome(store.jobs, lease.View(), result)
              == RecordedError(old(store.jobs), old(lease.View()), maxAttempts, retryable, category, now, clock)
    {
      var next := now + lease.attempt * BACKOFF;
      Note(Record(retryable, category, next, now, clock));
      if retryable && lease.attempt < maxAttempts {
        result := store.Requeue(lease, next, clock);
      } else {
        result := store.Fail(lease, category, now, clock);
      }
    }

    // The error is recorded on the jobs as others leave them.
    method HandleProcessingError(lease: Lease, retryable: bool, category: FailureCategory, m: Meeting)
      returns (result: JobStore.Result, ghost before: Jobs)
      requires Valid() && Shows(lease) && sys.phase.Failing?
      requires forall step <- m.beforeRecord :: Others(step)
      modifies this, store, artifacts, lease
      ensures Valid() && sys.phase.Idle? && old(log) <= log
      ensures Left(old(drawn), old(store.jobs), old(artifacts.files), before, artifacts.files)
      ensures JobStore.Outcome(store.jobs, lease.View(), result)
              == RecordedError(before, old(lease.View()), maxAttempts, retryable, category, m.now, m.recordClock)
    {
      Interfere(m.beforeRecord);
      before := store.jobs;
      result := RecordError(lease, retryable, category, m.now, m.recordClock);
    }

    lemma ValidJobs()
      requires Valid()
      ensures JobsOk(store.jobs)
    {
    }

    method Claim(m: Meeting) returns (lease: Lease?)
      requires Valid() && sys.phase.Idle?
      requires m.token != "" && m.token !in sys.world.tokens
      modifies this, store
      ensures Valid() && old(log) <= log
      ensures if lease == null then sys.phase.Idle? else fresh(lease) && sys.phase.Working? && Shows(lease)
      ensures if lease == null then forall id <- old(store.jobs) :: !MemoryStore.Ripe(old(store.jobs)[id], m.now)
              else MemoryStore.ClaimedFor(old(store.jobs), store.jobs, lease.View(), m.now, m.duration, m.token)
    {
      lease := store.ClaimNext(m.now, m.duration, m.token);
      Note(Begin(m.now, m.duration, m.token, m.claimClock));
    }

    // Claim, process, store the bytes, commit: every run continues the run of
    // the protocol so far, whatever it meets. Undisturbed, a usable result is
    // committed. A committed run made its job ready with its own bytes, and
    // without a commit nothing is left stored unless the storage failed to delete.
    method RunOnce(m: Meeting) returns (outcome: Outcome, ghost job: JobId)
      requires Valid() && sys.phase.Idle?
      requires m.token != "" && m.token !in sys.world.tokens
      requires forall step <- m.during :: Others(step) || step.Heartbeat? || step.Report?
      requires forall step <- m.beforePut + m.beforeCommit + m.beforeClean + m.beforeRecord :: Others(step)
      modifies this, store, artifacts
      ensures Valid() && sys.phase.Idle? && old(log) <= log
      ensures outcome.NothingDue? <==> forall id <- old(store.jobs) :: !MemoryStore.Ripe(old(store.jobs)[id], m.now)
      ensures Undisturbed(m) && !outcome.NothingDue? ==> outcome.Committed?
      ensures outcome.Committed? ==> m.processed.Result? && Delivers(job, m.name, m.processed.pdf)
      ensures !outcome.Committed? && m.discardWorks && m.cleanWorks ==>
                artifacts.files.Keys <= old(artifacts.files.Keys)
    {
      ValidJobs();
      ghost var jobs := store.jobs;
      var lease := Claim(m);
      if lease == null { return NothingDue, ""; }
      ClaimIsHeld(jobs, store.jobs, lease.View(), m.now, m.duration, m.token);
      ghost var worked;
      outcome, worked := Work(lease, m);
      job := lease.job;
      WorkedCommits(m, worked, outcome, maxAttempts, store.jobs);
    }

    method Work(lease: Lease, m: Meeting) returns (outcome: Outcome, ghost worked: Worked)
      requires Valid() && Shows(lease) && sys.phase.Working?
      requires forall step <- m.during :: Others(step) || step.Heartbeat? || step.Report?
      requires forall step <- m.beforePut + m.beforeCommit + m.beforeClean + m.beforeRecord :: Others(step)
      modifies this, store, artifacts, lease
      ensures Valid() && sys.phase.Idle? && !outcome.NothingDue? && old(log) <= log
      ensures var held := OnwardAll(old(HeldIn(store.jobs, lease.View())), m.during);
              held.Some? ==> HeldIn(worked.start, worked.l) == held
      ensures m.processed.Result? && Failure(m.processed).None? ==>
                Persisted(worked.start, worked.l, m, worked.known, worked.atCommit, worked.before, outcome, maxAttempts,
                          store.jobs)
      ensures outcome.Committed? ==> m.processed.Result? && Delivers(lease.job, m.name, m.processed.pdf)
      ensures !outcome.Committed? && m.discardWorks && m.cleanWorks ==>
                artifacts.files.Keys <= old(artifacts.files.Keys)
    {
      Processing(m.during, lease);
      ghost var jobs, l, known := store.jobs, lease.View(), drawn;
      ghost var before, atCommit;
      outcome, before, atCommit := Finish(lease, m);
      worked := Worked(jobs, l, known, atCommit, before);
    }

    // The job is ready, and its artifact is these bytes.
    ghost predicate Delivers(job: JobId, name: string, pdf: Bytes)
      reads store, artifacts
    {
      && job in store.jobs && store.jobs[job].status.Ready?
      && store.jobs[job].artifact == Some(ArtifactOf(job, name, pdf, artifacts.hash))
      && Key(job, name) in artifacts.files && artifacts.files[Key(job, name)] == pdf
    }

    // What the processor answered ends the run, or is recorded on the jobs as
    // others leave them, or goes on to be stored.
    method Finish(lease: Lease, m: Meeting)
      returns (outcome: Outcome, ghost before: Jobs, ghost atCommit: Jobs)
      requires Valid() && Shows(lease) && sys.phase.Working?
      requires forall step <- m.beforePut + m.beforeCommit + m.beforeClean + m.beforeRecord :: Others(step)
      modifies this, store, artifacts, lease
      ensures Valid() && sys.phase.Idle? && !outcome.NothingDue? && old(log) <= log
      ensures m.processed.LostLease? ==> outcome.GaveUp? && store.jobs == old(store.jobs)
      ensures var failed := Failure(m.processed);
              failed.Some? ==>
                && outcome.Recorded? && Left(old(drawn), old(store.jobs), old(artifacts.files), before, artifacts.files)
                && JobStore.Outcome(store.jobs, lease.View(), outcome.result)
                   == RecordedError(before, old(lease.View()), maxAttempts, failed.value.0, failed.value.1, m.now,
                                    m.recordClock)
      ensures m.processed.Result? && Failure(m.processed).None? ==>
                Persisted(old(store.jobs), old(lease.View()), m, old(drawn), atCommit, before, outcome, maxAttempts, store.jobs)
      ensures outcome.Committed? ==> m.processed.Result? && Delivers(lease.job, m.name, m.processed.pdf)
      ensures !outcome.Committed? && m.discardWorks && m.cleanWorks ==>
                artifacts.files.Keys <= old(artifacts.files.Keys)
    {
      before, atCommit := store.jobs, store.jobs;
      match m.processed {
        case LostLease =>
          Note(Abandon);
          outcome := GaveUp;
        case ProcessError(retryable, category) =>
          outcome, before := FailRun(lease, retryable, category, m);
        case Result(valid, pdf) =>
          if !valid || pdf == [] {
            outcome, before := FailRun(lease, false, if valid then FormatFailed else AIInvalidResponse, m);
            return;
          }
          ghost var stored;
          outcome, stored, before, atCommit := Persisting(lease, pdf, m);
      }
    }

    // The processor has failed, or its result cannot be used.
    method FailRun(lease: Lease, retryable: bool, category: FailureCategory, m: Meeting)
      returns (outcome: Outcome, ghost before: Jobs)
      requires Valid() && Shows(lease) && sys.phase.Working?
      requires forall step <- m.beforeRecord :: Others(step)
      modifies this, store, artifacts, lease
      ensures Valid() && sys.phase.Idle? && outcome.Recorded? && old(log) <= log
      ensures Left(old(drawn), old(store.jobs), old(artifacts.files), before, artifacts.files)
      ensures JobStore.Outcome(store.jobs, lease.View(), outcome.result)
              == RecordedError(before, old(lease.View()), maxAttempts, retryable, category, m.now, m.recordClock)
    {
      Note(ProcessFailed);
      var recorded;
      recorded, before := HandleProcessingError(lease, retryable, category, m);
      outcome := Recorded(recorded);
    }

    method MoveToPersisting(lease: Lease, clock: Time) returns (moved: JobStore.Result)
      requires Valid() && Shows(lease) && sys.phase.Working?
      modifies this, store, lease
      ensures Valid() && old(log) <= log && drawn == old(drawn)
      ensures if moved == Done then sys.phase.AtPersisting? && Shows(lease) else sys.phase.Idle?
      ensures var held := old(HeldIn(store.jobs, lease.View()));
              if held.None? || held.value.1 <= clock then moved == JobStore.LeaseLost
              else if !held.value.0.CanTransitionTo(Stage.Persisting) then moved == InvalidStage
              else && moved == Done && lease.View() == Advanced(old(lease.View()), held.value.1)
      ensures store.jobs == JobsMoved(old(store.jobs), old(lease.View()), clock)
    {
      Note(Persist(clock));
      moved := store.SetStage(lease, Stage.Persisting, clock);
    }

    method StoreBytes(lease: Lease, name: string, pdf: Bytes, works: bool) returns (stored: Option<Artifact>)
      requires Valid() && Shows(lease) && sys.phase.AtPersisting?
      modifies this, artifacts
      ensures Valid() && Shows(lease) && old(log) <= log && drawn == old(drawn)
      ensures if stored.Some? then sys.phase.Stored? && sys.phase.artifact == stored.value else sys.phase.Failing?
      ensures stored.Some? <==> works && SafeName(name) && pdf != []
      ensures stored.None? ==> artifacts.files == old(artifacts.files)
      ensures stored.Some? ==> stored.value == ArtifactOf(lease.job, name, pdf, artifacts.hash)
      ensures stored.Some? ==> Owned(lease.job, stored.value.key)
      ensures stored.Some? ==> artifacts.files == old(artifacts.files)[stored.value.key := pdf]
    {
      Note(Put(name, pdf, works));
      stored := None;
      if works {
        stored := artifacts.Put(lease.job, name, pdf);
      }
    }

    // Deletes bytes that will not be committed: unfit content, or a refused commit.
    method DeleteBytes(lease: Lease, artifact: Artifact, works: bool)
      requires Valid() && Shows(lease) && (sys.phase.Stored? || sys.phase.Refused?) && sys.phase.artifact == artifact
      modifies this, artifacts
      ensures Valid() && Shows(lease) && sys.phase.Failing? && old(log) <= log && drawn == old(drawn)
      ensures artifacts.files == if works then old(artifacts.files) - {artifact.key} else old(artifacts.files)
    {
      Note(if sys.phase.Stored? then Discard(works) else Clean(works));
      if works {
        artifacts.Delete(artifact);
      }
    }

    method CommitJob(lease: Lease, contentId: string, artifact: Artifact, now: Time, clock: Time)
      returns (completed: JobStore.Result)
      requires Valid() && Shows(lease) && sys.phase.Stored? && sys.phase.artifact == artifact
      requires artifact.available && artifact.byteSize > 0
      modifies this, store, lease
      ensures Valid() && old(log) <= log
      ensures completed == Done <==> CanCommit(old(store.jobs), old(lease.View()), contentId, clock)
      ensures completed != Done ==> store.jobs == old(store.jobs) && lease.View() == old(lease.View())
      ensures drawn == old(drawn)
      ensures if completed == Done then
                && sys.phase.Idle? && lease.job in old(store.jobs) && lease.job in store.jobs
                && store.jobs[lease.job].status.Ready? && store.jobs[lease.job].artifact == Some(artifact)
              else sys.phase.Refused? && sys.phase.artifact == artifact && Shows(lease)
    {
      Note(Commit(contentId, now, clock));
      completed := store.Complete(lease, Completion(contentId, artifact), now, clock);
    }

    // The stored bytes are committed, or deleted again if the content is unfit
    // or the commit refused; then the error is recorded.
    method Persisting(lease: Lease, pdf: Bytes, m: Meeting)
      returns (outcome: Outcome, ghost stored: Option<Artifact>, ghost before: Jobs, ghost atCommit: Jobs)
      requires Valid() && Shows(lease) && sys.phase.Working? && pdf != []
      requires forall step <- m.beforePut + m.beforeCommit + m.beforeClean + m.beforeRecord :: Others(step)
      modifies this, store, artifacts, lease
      ensures Valid() && sys.phase.Idle? && !outcome.NothingDue? && old(log) <= log
      ensures Persisted(old(store.jobs), old(lease.View()), m, old(drawn), atCommit, before, outcome, maxAttempts, store.jobs)
      ensures stored.Some? ==> stored.value == ArtifactOf(lease.job, m.name, pdf, artifacts.hash)
      ensures outcome.Committed? ==> stored.Some? && Delivers(lease.job, m.name, pdf)
      ensures stored.None? ==> artifacts.files.Keys <= old(artifacts.files.Keys)
      ensures stored.Some? ==> artifacts.files.Keys <= old(artifacts.files.Keys) + {stored.value.key}
      ensures !outcome.Committed? && stored.Some? && (if m.contentId.None? then m.discardWorks else m.cleanWorks) ==>
                stored.value.key !in artifacts.files
    {
      ghost var start, l := store.jobs, lease.View();
      var moved := MoveToPersisting(lease, m.persistClock);
      stored, before, atCommit := None, store.jobs, store.jobs;
      if moved == JobStore.LeaseLost {
        NotMoved(start, l, m, drawn, GaveUp, maxAttempts);
        return GaveUp, None, before, atCommit;
      }
      if moved != Done {
        NotMoved(start, l, m, drawn, NotPersisted, maxAttempts);
        return NotPersisted, None, before, atCommit;
      }
      outcome, stored, before, atCommit := Storing(lease, pdf, m, start, l);
    }

    // From the persisting stage on; `start` and `l` are the jobs and the lease before it.
    method Storing(lease: Lease, pdf: Bytes, m: Meeting, ghost start: Jobs, ghost l: LeaseView)
      returns (outcome: Outcome, ghost stored: Option<Artifact>, ghost before: Jobs, ghost atCommit: Jobs)
      requires Valid() && Shows(lease) && sys.phase.AtPersisting? && pdf != []
      requires forall step <- m.beforePut + m.beforeCommit + m.beforeClean + m.beforeRecord :: Others(step)
      requires HeldIn(start, l).Some? && m.persistClock < HeldIn(start, l).value.1
      requires HeldIn(start, l).value.0.CanTransitionTo(Stage.Persisting)
      requires store.jobs == JobsMoved(start, l, m.persistClock)
      requires lease.View() == Advanced(l, HeldIn(start, l).value.1)
      modifies this, store, artifacts, lease
      ensures Valid() && sys.phase.Idle? && !outcome.NothingDue? && old(log) <= log
      ensures Persisted(start, l, m, old(drawn), atCommit, before, outcome, maxAttempts, store.jobs)
      ensures stored.Some? ==> stored.value == ArtifactOf(lease.job, m.name, pdf, artifacts.hash)
      ensures outcome.Committed? ==> stored.Some? && Delivers(lease.job, m.name, pdf)
      ensures stored.None? ==> artifacts.files.Keys <= old(artifacts.files.Keys)
      ensures stored.Some? ==> artifacts.files.Keys <= old(artifacts.files.Keys) + {stored.value.key}
      ensures !outcome.Committed? && stored.Some? && (if m.contentId.None? then m.discardWorks else m.cleanWorks) ==>
                stored.value.key !in artifacts.files
    {
      ghost var known := drawn;
      Interfere(m.beforePut);
      ghost var jobs := store.jobs;
      atCommit := jobs;
      var put := StoreBytes(lease, m.name, pdf, m.putWorks);
      stored := put;
      if put.None? {
        outcome, before := Unstored(lease, m, start, l, known, jobs);
        return;
      }
      outcome, before, atCommit := Committing(lease, put.value, pdf, m);
      MovedThen(start, l, m, known, OnceStored(m, old(lease.View()), atCommit), jobs, atCommit, before, outcome,
                maxAttempts, store.jobs);
    }

    // The bytes could not be stored.
    method Unstored(lease: Lease, m: Meeting, ghost start: Jobs, ghost l: LeaseView, ghost known: set<JobId>,
                    ghost jobs: Jobs) returns (outcome: Outcome, ghost before: Jobs)
      requires Valid() && Shows(lease) && sys.phase.Failing? && known <= drawn && jobs == store.jobs
      requires forall step <- m.beforeRecord :: Others(step)
      requires HeldIn(start, l).Some? && m.persistClock < HeldIn(start, l).value.1
      requires HeldIn(start, l).value.0.CanTransitionTo(Stage.Persisting)
      requires JobsLeft(known, JobsMoved(start, l, m.persistClock), jobs) && (!m.putWorks || !SafeName(m.name))
      requires m.beforePut == [] ==> jobs == JobsMoved(start, l, m.persistClock)
      requires lease.View() == Advanced(l, HeldIn(start, l).value.1)
      modifies this, store, artifacts, lease
      ensures Valid() && sys.phase.Idle? && outcome.Recorded? && old(log) <= log
      ensures Persisted(start, l, m, known, jobs, before, outcome, maxAttempts, store.jobs)
      ensures artifacts.files.Keys <= old(artifacts.files.Keys)
    {
      var recorded;
      recorded, before := HandleProcessingError(lease, true, StorageFailed, m);
      outcome := Recorded(recorded);
      MovedThen(start, l, m, known, Records(true, StorageFailed, false), jobs, jobs, before, outcome, maxAttempts,
                store.jobs);
    }

    method Committing(lease: Lease, artifact: Artifact, pdf: Bytes, m: Meeting)
      returns (outcome: Outcome, ghost before: Jobs, ghost atCommit: Jobs)
      requires Valid() && Shows(lease) && sys.phase.Stored? && sys.phase.artifact == artifact && pdf != []
      requires artifact == ArtifactOf(lease.job, m.name, pdf, artifacts.hash) && Owned(lease.job, artifact.key)
      requires artifact.key in artifacts.files && artifacts.files[artifact.key] == pdf
      requires forall step <- m.beforeCommit + m.beforeClean + m.beforeRecord :: Others(step)
      modifies this, store, artifacts, lease
      ensures Valid() && sys.phase.Idle? && !outcome.NothingDue? && old(log) <= log
      ensures Settled(OnceStored(m, old(lease.View()), atCommit), m, old(lease.View()), old(drawn), old(store.jobs),
                      atCommit, before, outcome, maxAttempts, store.jobs)
      ensures m.beforeCommit == [] ==> atCommit == old(store.jobs)
      ensures outcome.Committed? ==> Delivers(lease.job, m.name, pdf)
      ensures artifacts.files.Keys <= old(artifacts.files.Keys)
      ensures !outcome.Committed? && (if m.contentId.None? then m.discardWorks else m.cleanWorks) ==>
                artifact.key !in artifacts.files
    {
      before, atCommit := store.jobs, store.jobs;
      if m.contentId.None? {
        DeleteBytes(lease, artifact, m.discardWorks);
        var recorded;
        recorded, before := HandleProcessingError(lease, false, AIInvalidResponse, m);
        return Recorded(recorded), before, atCommit;
      }
      Interfere(m.beforeCommit);
      before, atCommit := store.jobs, store.jobs;
      var completed := CommitJob(lease, m.contentId.value, artifact, m.now, m.commitClock);
      if completed == Done {
        return Committed, before, atCommit;
      }
      outcome, before := CleanUp(lease, artifact, m);
    }

    method CleanUp(lease: Lease, artifact: Artifact, m: Meeting) returns (outcome: Outcome, ghost before: Jobs)
      requires Valid() && Shows(lease) && sys.phase.Refused? && sys.phase.artifact == artifact
      requires forall step <- m.beforeClean + m.beforeRecord :: Others(step)
      modifies this, store, artifacts, lease
      ensures Valid() && sys.phase.Idle? && !outcome.NothingDue? && !outcome.Committed? && old(log) <= log
      ensures Meets(if m.cancelled then Ends(GaveUp) else Records(true, StorageFailed, true),
                    outcome, before, old(lease.View()), maxAttempts, m, store.jobs)
      ensures JobsLeft(old(drawn), old(store.jobs), before)
      ensures artifacts.files.Keys <= old(artifacts.files.Keys)
      ensures m.cleanWorks ==> artifact.key !in artifacts.files
    {
      before := store.jobs;
      Interfere(m.beforeClean);
      DeleteBytes(lease, artifact, m.cleanWorks);
      if m.cancelled {
        Note(Abandon);
        return GaveUp, before;
      }
      var recorded;
      recorded, before := HandleProcessingError(lease, true, StorageFailed, m);
      if recorded == JobStore.LeaseLost { return GaveUp, before; }
      return Recorded(recorded), before;
    }
  }

  // Others leave the worker's phase and all leases alone.
  ghost predicate Quiet(s: System, t: System) {
    t.phase == s.phase && t.world.leases == s.world.leases && t.world.tokens == s.world.tokens
  }
}
