/** One capture browser shared by automation and a person. */
module RecoveryProtocol {
  import opened Domain

  datatype Progress = Starting | Working | NeedsInput | Saved | Broken | Shut   // Shut is "idle"

  // What a person asks of the browser: control alone, a saved page, or an input.
  datatype Command = Takeover | SavePage | Browse(input: int)

  // Where the goroutine of a session stands; n counts the automated steps.
  datatype Place =
    | Opening
    | Checking(n: nat) | Observing(n: nat) | Arming(n: nat) | Thinking(n: nat) | Deciding(n: nat)
    | Acting(n: nat) | Inputting(n: nat) | Pausing(n: nat)
    | AutoSaving | HandingOff | Serving | Saving | Publishing
    | Closing | Finishing | Leaving | Ended

  datatype Session = Session(
    raw: string,
    progress: Progress,
    human: bool,
    armed: bool,             // a cancel function for the current step is registered
    stepCancelled: bool,     // the context of the current step is cancelled
    cancelled: bool,         // the session's context is cancelled or expired
    autoOver: bool,          // the time for automation is over
    open: bool,              // the browser is open
    done: bool,
    inputs: seq<Command>,
    accepted: seq<Command>,
    executed: seq<Command>,
    result: bool,            // a page has been saved
    place: Place)

  // An automated Input call as it starts: was a person in control, and was the
  // context it carries cancelled?
  datatype Input = Input(session: nat, human: bool, cancelled: bool)

  datatype State = State(sessions: seq<Session>, current: Option<nat>, shutdown: bool, inputs: seq<Input>)

  datatype Reply = Act | Finish | GiveUp

  datatype Event =
    | Start(raw: string, retry: bool)
    | Close(raw: string)
    | Control(raw: string, command: Command)
    | Expire(i: nat)
    | AutoExpire(i: nat)
    | Shutdown
    | Run(i: nat, ok: bool, reply: Reply)     // the goroutine's next step and what it meets

  const STEPS := 4
  const QUEUE := 16

  function Opened(raw: string, cancelled: bool): Session {
    Session(raw, Starting, false, false, false, cancelled, false, false, false, [], [], [], false, Opening)
  }

  // The goroutine never overwrites the state of a session that was closed.
  function Show(a: Session, p: Progress): Session {
    if a.progress.Shut? then a else a.(progress := p)
  }

  function StepContextCancelled(a: Session): bool {
    a.cancelled || a.autoOver || a.stepCancelled
  }

  predicate Automating(p: Place) {
    p.Checking? || p.Observing? || p.Arming? || p.Thinking? || p.Deciding? || p.Acting? || p.Inputting? || p.Pausing?
  }

  function Automate(a: Session, ok: bool, reply: Reply): Session
    requires Automating(a.place)
  {
    if a.place.Checking? then
      a.(place := if a.place.n < STEPS && !a.human && !a.autoOver && !a.cancelled then Observing(a.place.n) else HandingOff)
    else if a.place.Observing? then if ok then Show(a, Working).(place := Arming(a.place.n)) else a.(place := HandingOff)
    else if a.place.Arming? then
      a.(armed := true, stepCancelled := a.human, place := if a.human then HandingOff else Thinking(a.place.n))
    else if a.place.Thinking? then a.(place := Deciding(a.place.n))
    else if a.place.Deciding? then
      a.(place := if a.human || !ok || reply.GiveUp? then HandingOff
                  else if reply.Finish? then AutoSaving else Acting(a.place.n))
    else if a.place.Acting? then a.(place := Inputting(a.place.n))
    else if a.place.Inputting? then a.(place := if ok then Pausing(a.place.n) else HandingOff)
    else a.(place := if !ok && a.cancelled then Closing else Checking(a.place.n + 1))
  }

  // Serving takes a queued command, tries to save a readable page, or leaves
  // when the session is over.
  function Serve(a: Session, reply: Reply): (b: Session)
    ensures b.human == a.human && (b.place.Acting? ==> a.place.Acting?)
  {
    if reply.GiveUp? then if a.cancelled then a.(place := Closing) else a
    else if reply.Finish? then a.(place := Saving)
    else if a.inputs == [] then a
    else a.(inputs := a.inputs[1..], executed := a.executed + [a.inputs[0]],
            place := if a.inputs[0].SavePage? then Saving else Serving)
  }

  predicate Entering(p: Place) {
    p.Opening? || p.AutoSaving? || p.HandingOff? || p.Saving?
  }

  function Enter(a: Session, ok: bool): (b: Session)
    ensures (a.human ==> b.human) && (Entering(a.place) ==> !b.place.Acting?)
  {
    if a.place.Opening? then if ok then a.(open := true, place := Checking(0)) else Show(a, Broken).(place := Finishing)
    else if a.place.HandingOff? then Show(a, NeedsInput).(human := true, place := Serving)
    else if ok then a.(result := true, place := Publishing)
    else a.(place := if a.place.AutoSaving? then HandingOff else Serving)
  }

  predicate Leaves(p: Place) {
    p.Publishing? || p.Closing? || p.Finishing? || p.Leaving? || p.Ended?
  }

  // The browser is closed before the session reports that it is done.
  function Depart(a: Session): (b: Session)
    ensures b.human == a.human && !b.place.Acting?
  {
    if a.place.Publishing? then Show(a, Saved).(place := Closing)
    else if a.place.Closing? then a.(open := false, place := Finishing)
    else if a.place.Finishing? then (if a.cancelled then Show(a, Broken) else a).(place := Leaving)
    else a.(done := true, place := Ended)
  }

  function Advance(a: Session, ok: bool, reply: Reply): Session {
    if Automating(a.place) then Automate(a, ok, reply)
    else if a.place.Serving? then Serve(a, reply)
    else if Entering(a.place) then Enter(a, ok)
    else Depart(a)
  }

  // Command: a person takes control, which cancels the step under way.
  function TakeControl(a: Session, c: Command): Session {
    var b := a.(human := true, stepCancelled := a.armed || a.stepCancelled, progress := NeedsInput);
    if c.Takeover? || |a.inputs| >= QUEUE then b else b.(inputs := a.inputs + [c], accepted := a.accepted + [c])
  }

  function Update(s: State, i: nat, a: Session): State
    requires i < |s.sessions|
  {
    s.(sessions := s.sessions[i := a])
  }

  // The session a command for this source reaches.
  predicate Reaches(s: State, raw: string) {
    s.current.Some? && s.current.value < |s.sessions| && s.sessions[s.current.value].raw == raw
  }

  predicate MayStart(s: State, raw: string, retry: bool) {
    s.current.Some? && s.current.value < |s.sessions| ==>
      var a := s.sessions[s.current.value];
      a.done && !(a.raw == raw && (!retry || a.progress.Saved?))
  }

  function StartSession(s: State, raw: string, retry: bool): State {
    if MayStart(s, raw, retry) then s.(sessions := s.sessions + [Opened(raw, s.shutdown)], current := Some(|s.sessions|))
    else s
  }

  function RunSession(s: State, i: nat, ok: bool, reply: Reply): State
    requires i < |s.sessions|
  {
    var a := s.sessions[i];
    var t := Update(s, i, Advance(a, ok, reply));
    if a.place.Acting? then t.(inputs := s.inputs + [Input(i, a.human, StepContextCancelled(a))]) else t
  }

  function Step(s: State, e: Event): State {
    match e
    case Start(raw, retry) => StartSession(s, raw, retry)
    case Close(raw) =>
      if Reaches(s, raw) then
        Update(s, s.current.value, s.sessions[s.current.value].(progress := Shut, cancelled := true))
      else s
    case Control(raw, c) =>
      if Reaches(s, raw) && !s.sessions[s.current.value].done
      then Update(s, s.current.value, TakeControl(s.sessions[s.current.value], c)) else s
    case Expire(i) => if i < |s.sessions| then Update(s, i, s.sessions[i].(cancelled := true)) else s
    case AutoExpire(i) => if i < |s.sessions| then Update(s, i, s.sessions[i].(autoOver := true)) else s
    case Shutdown =>
      s.(shutdown := true, sessions := seq(|s.sessions|, i requires 0 <= i < |s.sessions| => s.sessions[i].(cancelled := true)))
    case Run(i, ok, reply) => if i < |s.sessions| then RunSession(s, i, ok, reply) else s
  }

  ghost function Exec(s: State, run: seq<Event>): State
    decreases |run|
  {
    if run == [] then s else Exec(Step(s, run[0]), run[1..])
  }

  const START := State([], None, false, [])

  // ------------------------------------------------------------ invariant

  predicate BrowserUsed(p: Place) {
    !(p.Opening? || p.Finishing? || p.Leaving? || p.Ended?)
  }

  predicate InStep(p: Place) {
    p.Thinking? || p.Deciding? || p.Acting? || p.Inputting?
  }

  predicate SessionOk(a: Session) {
    && (a.open <==> BrowserUsed(a.place)) && (a.done <==> a.place.Ended?)
    && (InStep(a.place) ==> a.armed && (a.human ==> a.stepCancelled))
    && (a.accepted == a.executed + a.inputs && |a.inputs| <= QUEUE)
    && (a.result ==> Leaves(a.place)) && (a.progress.Saved? ==> a.result)
    && (a.place.Publishing? ==> a.result)
  }

  ghost predicate Ok(s: State) {
    && (forall i | 0 <= i < |s.sessions| :: SessionOk(s.sessions[i]))
    && (forall i | 0 <= i < |s.sessions| :: s.current == Some(i) || s.sessions[i].done)
    && (s.current.Some? ==> s.current.value < |s.sessions|)
    && (forall k | 0 <= k < |s.inputs| :: s.inputs[k].human ==> s.inputs[k].cancelled)
  }

  lemma AutomateKeepsSession(a: Session, ok: bool, reply: Reply)
    requires SessionOk(a) && Automating(a.place)
    ensures SessionOk(Automate(a, ok, reply))
  {
  }

  lemma ServeKeepsSession(a: Session, reply: Reply)
    requires SessionOk(a) && a.place.Serving?
    ensures SessionOk(Serve(a, reply))
  {
    if a.inputs != [] { Dequeued(a.executed, a.inputs); }
  }

  lemma Dequeued(executed: seq<Command>, inputs: seq<Command>)
    requires inputs != []
    ensures executed + [inputs[0]] + inputs[1..] == executed + inputs
  {
  }

  // Leaving automation, capturing and closing.
  lemma OpeningKeepsSession(a: Session, ok: bool)
    requires SessionOk(a) && a.place.Opening?
    ensures SessionOk(Enter(a, ok))
  {
  }

  lemma HandOffKeepsSession(a: Session, ok: bool)
    requires SessionOk(a) && a.place.HandingOff?
    ensures SessionOk(Enter(a, ok))
  {
  }

  lemma SavingKeepsSession(a: Session, ok: bool)
    requires SessionOk(a) && (a.place.AutoSaving? || a.place.Saving?)
    ensures SessionOk(Enter(a, ok))
  {
  }

  lemma EnterKeepsSession(a: Session, ok: bool)
    requires SessionOk(a) && Entering(a.place)
    ensures SessionOk(Enter(a, ok)) && !a.done
  {
    if a.place.Opening? {
      OpeningKeepsSession(a, ok);
    } else if a.place.HandingOff? {
      HandOffKeepsSession(a, ok);
    } else {
      SavingKeepsSession(a, ok);
    }
  }

  lemma ClosingKeepsSession(a: Session)
    requires SessionOk(a) && (a.place.Publishing? || a.place.Closing?)
    ensures SessionOk(Depart(a))
  {
  }

  lemma FinishingKeepsSession(a: Session)
    requires SessionOk(a) && a.place.Finishing?
    ensures SessionOk(Depart(a))
  {
  }

  lemma LeavingKeepsSession(a: Session)
    requires SessionOk(a) && (a.place.Leaving? || a.place.Ended?)
    ensures SessionOk(Depart(a)) && (a.done ==> Depart(a) == a)
  {
  }

  lemma DepartKeepsSession(a: Session)
    requires SessionOk(a) && Leaves(a.place)
    ensures SessionOk(Depart(a)) && (a.done ==> Depart(a) == a)
  {
    if a.place.Publishing? || a.place.Closing? {
      ClosingKeepsSession(a);
    } else if a.place.Finishing? {
      FinishingKeepsSession(a);
    } else {
      LeavingKeepsSession(a);
    }
  }

  lemma Places(p: Place)
    ensures Automating(p) || p.Serving? || Entering(p) || Leaves(p)
  {
  }

  lemma AdvanceKeepsSession(a: Session, ok: bool, reply: Reply)
    requires SessionOk(a)
    ensures SessionOk(Advance(a, ok, reply)) && (a.done ==> Advance(a, ok, reply) == a)
  {
    if Automating(a.place) {
      AutomateKeepsSession(a, ok, reply);
    } else if a.place.Serving? {
      ServeKeepsSession(a, reply);
    } else if Entering(a.place) {
      EnterKeepsSession(a, ok);
    } else {
      Places(a.place);
      DepartKeepsSession(a);
    }
  }

  lemma ControlKeepsSession(a: Session, c: Command)
    requires SessionOk(a)
    ensures SessionOk(TakeControl(a, c)) && TakeControl(a, c).done == a.done
  {
  }

  // One session changes, and no finished one comes back to life.
  lemma UpdateKeepsOk(s: State, i: nat, a: Session)
    requires Ok(s) && i < |s.sessions| && SessionOk(a) && (s.sessions[i].done ==> a.done)
    ensures Ok(Update(s, i, a))
  {
  }

  lemma RunSessionKeepsOk(s: State, i: nat, ok: bool, reply: Reply)
    requires Ok(s) && i < |s.sessions|
    ensures Ok(RunSession(s, i, ok, reply))
  {
    AdvanceKeepsSession(s.sessions[i], ok, reply);
    UpdateKeepsOk(s, i, Advance(s.sessions[i], ok, reply));
  }

  lemma StepKeepsOk(s: State, e: Event)
    requires Ok(s)
    ensures Ok(Step(s, e))
  {
    if e.Run? && e.i < |s.sessions| {
      RunSessionKeepsOk(s, e.i, e.ok, e.reply);
    } else if e.Control? && Reaches(s, e.raw) {
      ControlKeepsSession(s.sessions[s.current.value], e.command);
      UpdateKeepsOk(s, s.current.value, TakeControl(s.sessions[s.current.value], e.command));
    }
  }

  lemma {:induction false} RunKeepsOk(s: State, run: seq<Event>)
    requires Ok(s)
    ensures Ok(Exec(s, run))
    decreases |run|
  {
    if run != [] {
      StepKeepsOk(s, run[0]);
      RunKeepsOk(Step(s, run[0]), run[1..]);
    }
  }

  // At every moment only the current session can have an open browser.
  lemma {:induction false} OneBrowser(run: seq<Event>, i: nat)
    requires i < |Exec(START, run).sessions| && Exec(START, run).current != Some(i)
    ensures var a := Exec(START, run).sessions[i]; a.done && !a.open && a.place.Ended?
  {
    RunKeepsOk(START, run);
    assert SessionOk(Exec(START, run).sessions[i]);
  }

  // Every automated Input call that starts after a person took control carries
  // a cancelled context.
  lemma {:induction false} TakeoverCancels(run: seq<Event>, k: nat)
    requires k < |Exec(START, run).inputs| && Exec(START, run).inputs[k].human
    ensures Exec(START, run).inputs[k].cancelled
  {
    RunKeepsOk(START, run);
  }

  // The commands a session accepted are carried out in their order, none twice.
  lemma {:induction false} CommandsInOrder(run: seq<Event>, i: nat)
    requires i < |Exec(START, run).sessions|
    ensures var a := Exec(START, run).sessions[i]; a.executed <= a.accepted && |a.accepted| <= |a.executed| + QUEUE
  {
    RunKeepsOk(START, run);
    assert SessionOk(Exec(START, run).sessions[i]);
  }

  // ------------------------------------------------- no more automation

  // Automated inputs of a session still to come once a person is in control.
  function Ahead(a: Session): nat {
    if a.place.Acting? then 1 else 0
  }

  ghost function InputsOf(inputs: seq<Input>, i: nat): nat {
    if inputs == [] then 0 else InputsOf(inputs[..|inputs| - 1], i) + if inputs[|inputs| - 1].session == i then 1 else 0
  }

  // With a person in control no automated input is decided on.
  lemma AdvanceKeepsHuman(a: Session, ok: bool, reply: Reply)
    requires a.human
    ensures Advance(a, ok, reply).human && !Advance(a, ok, reply).place.Acting?
  {
    if Automating(a.place) { AutomateKeepsHuman(a, ok, reply); }
  }

  lemma AutomateKeepsHuman(a: Session, ok: bool, reply: Reply)
    requires a.human && Automating(a.place)
    ensures Automate(a, ok, reply).human
    ensures !Automate(a, ok, reply).place.Acting?
  {
    if a.place.Deciding? {
      assert Automate(a, ok, reply).place == HandingOff;
    }
  }

  lemma StepKeepsHuman(s: State, e: Event, i: nat)
    requires i < |s.sessions| && s.sessions[i].human
    ensures var t := Step(s, e);
            && i < |t.sessions| && t.sessions[i].human
            && InputsOf(t.inputs, i) + Ahead(t.sessions[i]) <= InputsOf(s.inputs, i) + Ahead(s.sessions[i])
  {
    if e.Run? {
      if e.i < |s.sessions| { RunSessionKeepsHuman(s, e.i, e.ok, e.reply, i); }
    } else {
      CommandKeepsHuman(s, e, i);
    }
  }

  // Commands and expiries move no goroutine.
  lemma CommandKeepsHuman(s: State, e: Event, i: nat)
    requires !e.Run? && i < |s.sessions| && s.sessions[i].human
    ensures var t := Step(s, e);
            i < |t.sessions| && t.sessions[i].human && t.sessions[i].place == s.sessions[i].place && t.inputs == s.inputs
  {
    if e.Control? && Reaches(s, e.raw) {
      ControlKeepsHuman(s.sessions[s.current.value], e.command);
    }
  }

  lemma ControlKeepsHuman(a: Session, c: Command)
    ensures TakeControl(a, c).human && TakeControl(a, c).place == a.place
  {
  }

  lemma RunSessionKeepsHuman(s: State, k: nat, ok: bool, reply: Reply, i: nat)
    requires k < |s.sessions| && i < |s.sessions| && s.sessions[i].human
    ensures var t := RunSession(s, k, ok, reply);
            && i < |t.sessions| && t.sessions[i].human
            && InputsOf(t.inputs, i) + Ahead(t.sessions[i]) <= InputsOf(s.inputs, i) + Ahead(s.sessions[i])
  {
    var t := RunSession(s, k, ok, reply);
    AdvanceKeepsHuman(s.sessions[i], ok, reply);
    if s.sessions[k].place.Acting? { assert t.inputs[..|t.inputs| - 1] == s.inputs; }
  }

  // After a person took control at most the one input already decided on still
  // starts, and none in any later state of the session.
  lemma {:induction false} NoMoreAutomation(s: State, run: seq<Event>, i: nat)
    requires i < |s.sessions| && s.sessions[i].human
    ensures var t := Exec(s, run);
            i < |t.sessions| && InputsOf(t.inputs, i) <= InputsOf(s.inputs, i) + Ahead(s.sessions[i])
    decreases |run|
  {
    if run != [] {
      StepKeepsHuman(s, run[0], i);
      NoMoreAutomation(Step(s, run[0]), run[1..], i);
    }
  }

  // --------------------------------------------------- what does take place

  predicate Undisturbed(a: Session) {
    !a.human && !a.autoOver && !a.cancelled && !a.progress.Shut?
  }

  // Left alone, automation observes the page, asks the model and comes to the
  // input it has decided on, with a context that is not cancelled, up to four
  // times; and no step of it stands still.
  lemma AutomationActs(a: Session, n: nat)
    requires Undisturbed(a) && Automating(a.place) && a.place.n == n
    ensures var b := Advance(a, true, Act);
            && (a.place == Checking(n) && n < 4 ==> b.place == Observing(n))
            && (a.place == Observing(n) ==> b.place == Arming(n))
            && (a.place == Arming(n) ==> b.place == Thinking(n) && !StepContextCancelled(b))
            && (a.place == Thinking(n) ==> b.place == Deciding(n))
            && (a.place == Deciding(n) ==> b.place == Acting(n))
            && (a.place == Acting(n) ==> b.place == Inputting(n))
            && (a.place == Inputting(n) ==> b.place == Pausing(n))
            && (a.place == Pausing(n) ==> b.place == Checking(n + 1))
            && Undisturbed(b) && (a.place != Arming(n) ==> b.stepCancelled == a.stepCancelled)
  {
  }

  // The input is made by the goroutine's next step.
  lemma InputIsMade(s: State, i: nat, ok: bool, reply: Reply)
    requires i < |s.sessions| && s.sessions[i].place.Acting?
    ensures var a := s.sessions[i];
            RunSession(s, i, ok, reply).inputs == s.inputs + [Input(i, a.human, a.cancelled || a.autoOver || a.stepCancelled)]
  {
  }

  // Automation that has not succeeded within its steps hands over to a person.
  lemma AutomationHandsOver(a: Session, n: nat)
    requires a.place == Checking(n) && (n >= 4 || a.human || a.autoOver || a.cancelled)
    ensures var b := Advance(Advance(a, true, Act), true, Act);
            b.human && b.place == Serving && (!a.progress.Shut? ==> b.progress == NeedsInput)
  {
  }

  // A page that the model finds done, that is readable by itself, or that a
  // person asks to be saved is saved if it can be read; then the browser is
  // closed and the session is over.
  lemma PageIsSaved(a: Session)
    requires a.place == AutoSaving || a.place == Saving
    requires !a.progress.Shut? && !a.cancelled && a.open
    ensures var saved := Advance(a, true, Act);
            var over := Advance(Advance(Advance(Advance(saved, true, Act), true, Act), true, Act), true, Act);
            saved.result && over.progress == Saved && !over.open && over.done
  {
    var saved := Advance(a, true, Act);
    assert saved.place == Publishing;
    var closing := Advance(saved, true, Act);
    assert closing.place == Closing && closing.progress == Saved;
    var finishing := Advance(closing, true, Act);
    assert finishing.place == Finishing;
    var leaving := Advance(finishing, true, Act);
    assert leaving.place == Leaving;
  }

  lemma DoneLeadsToSaving(a: Session, n: nat)
    requires Undisturbed(a) && a.place == Deciding(n)
    ensures Advance(a, true, Finish).place == AutoSaving
  {
  }

  // A command waiting in front is carried out next, and a save command saves.
  lemma CommandIsServed(a: Session)
    requires a.place == Serving && a.inputs != []
    ensures var b := Advance(a, true, Act);
            && b.executed == a.executed + [a.inputs[0]] && b.inputs == a.inputs[1..]
            && b.place == (if a.inputs[0] == SavePage then Saving else Serving)
  {
  }

  // What ends a session: its person, its time, or the end of the manager, which
  // also ends every session still to come.
  lemma SessionEnds(s: State, e: Event, i: nat)
    requires Ok(s) && i < |s.sessions|
    requires match e
             case Close(raw) => s.current == Some(i) && s.sessions[i].raw == raw
             case Expire(k) => k == i
             case Shutdown => true
             case _ => false
    ensures Step(s, e).sessions[i].cancelled
    ensures forall raw, retry :: e.Shutdown? && MayStart(Step(s, e), raw, retry) ==>
              var t := Step(Step(s, e), Start(raw, retry)); t.current == Some(|s.sessions|) && t.sessions[|s.sessions|].cancelled
  {
  }

  // The time for automation ends automation alone.
  lemma AutomationTimesOut(s: State, i: nat)
    requires i < |s.sessions|
    ensures var t := Step(s, AutoExpire(i));
            t.sessions[i] == s.sessions[i].(autoOver := true) && StepContextCancelled(t.sessions[i])
  {
  }

  // A session that is given up while served closes its browser.
  lemma CancelledIsClosed(a: Session)
    requires a.place == Serving && a.cancelled
    ensures var closing := Advance(a, true, GiveUp);
            var over := Advance(Advance(Advance(closing, true, Act), true, Act), true, Act);
            closing.place == Closing && !over.open && over.done
  {
    var closing := Advance(a, true, GiveUp);
    var finishing := Advance(closing, true, Act);
    assert finishing.place == Finishing;
    var leaving := Advance(finishing, true, Act);
    assert leaving.place == Leaving;
  }
}

/** The manager's methods, each under its mutex. */
module Recoveries {
  import opened Domain
  import opened RecoveryProtocol

  datatype Failure = Busy | Refused

  class Manager {
    var sessions: seq<Session>
    var current: Option<nat>
    var shutdown: bool
    ghost var inputs: seq<Input>

    ghost function Snapshot(): State
      reads this
    {
      State(sessions, current, shutdown, inputs)
    }

    ghost predicate Valid()
      reads this
    {
      Ok(Snapshot())
    }

    constructor ()
      ensures Valid() && Snapshot() == START
    {
      sessions, current, shutdown, inputs := [], None, false, [];
    }

    // Opens a session unless one is to be joined or another source's is running.
    method StartLocked(raw: string, retry: bool) returns (session: Option<nat>)
      requires Valid()
      modifies this
      ensures Valid() && Snapshot() == StartSession(old(Snapshot()), raw, retry)
      ensures session.Some? ==> session == current && session.value < |sessions| && sessions[session.value].raw == raw
      ensures session.None? ==> old(current).Some? && sessions == old(sessions)
                                && !sessions[old(current).value].done && sessions[old(current).value].raw != raw
      ensures var last := if old(current).None? then None else Some(old(sessions)[old(current).value]);
              if last.None? || (last.value.done && (last.value.raw != raw || (retry && last.value.progress != Saved)))
              then && session == Some(|old(sessions)|) && old(sessions) < sessions && |sessions| == |old(sessions)| + 1
                   && var a := sessions[session.value];
                      (a.place == Opening && a.progress == Starting && !a.human && a.cancelled == shutdown)
              else && sessions == old(sessions) && current == old(current)
                   && (session.Some? <==> last.value.raw == raw)
    {
      StepKeepsOk(Snapshot(), Start(raw, retry));
      if current.Some? {
        var a := sessions[current.value];
        if a.raw == raw && (!retry || a.progress.Saved?) { return current; }
        if !a.done {
          if a.raw != raw { return None; }
          return current;
        }
      }
      current := Some(|sessions|);
      sessions := sessions + [Opened(raw, shutdown)];
      return current;
    }

    method CloseSession(raw: string) returns (failure: Option<Failure>)
      requires Valid()
      modifies this
      ensures Valid() && Snapshot() == Step(old(Snapshot()), Close(raw))
      ensures failure.None? <==> Reaches(old(Snapshot()), raw)
      ensures failure.None? ==> sessions[current.value].cancelled && sessions[current.value].progress == Shut
    {
      StepKeepsOk(Snapshot(), Close(raw));
      if current.None? || sessions[current.value].raw != raw { return Some(Refused); }
      var i := current.value;
      sessions := sessions[i := sessions[i].(progress := Shut, cancelled := true)];
      return None;
    }

    // A person's command; it is refused once the session is over.
    method Command(raw: string, c: Command) returns (failure: Option<Failure>)
      requires Valid()
      modifies this
      ensures Valid() && Snapshot() == Step(old(Snapshot()), Control(raw, c))
      ensures failure.None? ==> current.Some? && sessions[current.value].human
                                && (c.Takeover? || sessions[current.value].accepted == old(sessions[current.value].accepted) + [c])
      ensures failure == Some(Busy) ==> !c.Takeover? && current.Some? && |sessions[current.value].inputs| == QUEUE
      ensures failure == Some(Refused) ==> sessions == old(sessions)
      ensures var reached := old(current).Some? && old(current).value < |old(sessions)|
                             && old(sessions)[old(current).value].raw == raw && !old(sessions)[old(current).value].done;
              && (failure == Some(Refused) <==> !reached)
              && (failure == Some(Busy) <==> reached && !c.Takeover? && |old(sessions)[old(current).value].inputs| >= 16)
    {
      StepKeepsOk(Snapshot(), Control(raw, c));
      if current.None? || sessions[current.value].raw != raw { return Some(Refused); }
      var i := current.value;
      var a := sessions[i];
      if a.done { return Some(Refused); }
      a := a.(human := true);
      if a.armed {
        a := a.(stepCancelled := true);
      }
      a := a.(progress := NeedsInput);
      var full := false;
      if !c.Takeover? {
        if |a.inputs| < QUEUE {
          a := a.(inputs := a.inputs + [c], accepted := a.accepted + [c]);
        } else {
          full := true;
        }
      }
      sessions := sessions[i := a];
      return if full then Some(Busy) else None;
    }

    // One step of a session's goroutine.
    method Run(i: nat, ok: bool, reply: Reply)
      requires Valid() && i < |sessions|
      modifies this
      ensures Valid() && Snapshot() == RunSession(old(Snapshot()), i, ok, reply)
    {
      RunSessionKeepsOk(Snapshot(), i, ok, reply);
      var a := sessions[i];
      if a.place.Acting? {
        inputs := inputs + [Input(i, a.human, StepContextCancelled(a))];
      }
      sessions := sessions[i := Advance(a, ok, reply)];
    }

    // Any schedule of commands, expiries and goroutines.
    method Schedule(events: seq<Event>)
      requires Valid()
      modifies this
      ensures Valid()
      ensures forall i | 0 <= i < |sessions| :: sessions[i].open ==> current == Some(i)
    {
      for k := 0 to |events|
        invariant Valid()
      {
        match events[k] {
          case Start(raw, retry) => var session := StartLocked(raw, retry);
          case Close(raw) => var failure := CloseSession(raw);
          case Control(raw, c) => var failure := Command(raw, c);
          case Run(i, ok, reply) => if i < |sessions| { Run(i, ok, reply); }
          case Expire(i) => Expire(i);
          case AutoExpire(i) => AutoExpire(i);
          case Shutdown => Shutdown();
        }
      }
    }

    method Expire(i: nat)
      requires Valid()
      modifies this
      ensures Valid() && Snapshot() == Step(old(Snapshot()), RecoveryProtocol.Expire(i))
    {
      StepKeepsOk(Snapshot(), RecoveryProtocol.Expire(i));
      if i < |sessions| {
        sessions := sessions[i := sessions[i].(cancelled := true)];
      }
    }

    method AutoExpire(i: nat)
      requires Valid()
      modifies this
      ensures Valid() && Snapshot() == Step(old(Snapshot()), RecoveryProtocol.AutoExpire(i))
    {
      StepKeepsOk(Snapshot(), RecoveryProtocol.AutoExpire(i));
      if i < |sessions| {
        sessions := sessions[i := sessions[i].(autoOver := true)];
      }
    }

    // Closing the manager cancels every session, also those still to come.
    method Shutdown()
      requires Valid()
      modifies this
      ensures Valid() && Snapshot() == Step(old(Snapshot()), RecoveryProtocol.Shutdown)
    {
      StepKeepsOk(Snapshot(), RecoveryProtocol.Shutdown);
      shutdown := true;
      var all := sessions;
      sessions := seq(|all|, i requires 0 <= i < |all| => all[i].(cancelled := true));
    }
  }
}
