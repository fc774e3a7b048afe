/** The byte budget shared by all transfers of one rendering. */
module Budget {
  // A writer has read the counter, has reserved bytes, or has written some of
  // them and not yet given back the rest.
  datatype Phase =
    | Idle
    | Starting(len: nat)
    | Loaded(len: nat, used: int)
    | Reserved(len: nat, want: nat)
    | Written(len: nat, want: nat, n: nat, failed: bool)
    | Returned(len: nat, n: nat, failed: bool)

  datatype State = State(bytes: int, maxBytes: int, sent: nat, writers: seq<Phase>)

  datatype Event =
    | Call(i: nat, len: nat)
    | Load(i: nat)
    | Swap(i: nat)                                // compare and swap
    | Transfer(i: nat, n: nat, failed: bool)      // the writer below takes n bytes
    | Settle(i: nat)

  predicate Enabled(s: State, e: Event) {
    && e.i < |s.writers|
    && match e
       case Call(i, _) => s.writers[i].Idle? || s.writers[i].Returned?
       case Load(i) => s.writers[i].Starting?
       case Swap(i) => s.writers[i].Loaded?
       case Transfer(i, n, failed) => s.writers[i].Reserved? && n <= s.writers[i].want && (n < s.writers[i].want ==> failed)
       case Settle(i) => s.writers[i].Written?
  }

  function Want(s: State, len: nat, used: int): int {
    if len > s.maxBytes - used then s.maxBytes - used else len
  }

  function Step(s: State, e: Event): State
    requires Enabled(s, e)
  {
    var w := s.writers[e.i];
    match e
    case Call(i, len) => s.(writers := s.writers[i := Starting(len)])
    case Load(i) =>
      if s.maxBytes - s.bytes <= 0 then s.(writers := s.writers[i := Returned(w.len, 0, true)])
      else s.(writers := s.writers[i := Loaded(w.len, s.bytes)])
    case Swap(i) =>
      var want := Want(s, w.len, w.used);
      if s.bytes == w.used && want >= 0 then s.(bytes := w.used + want, writers := s.writers[i := Reserved(w.len, want)])
      else s.(writers := s.writers[i := Starting(w.len)])
    case Transfer(i, n, failed) => s.(sent := s.sent + n, writers := s.writers[i := Written(w.len, w.want, n, failed)])
    case Settle(i) =>
      s.(bytes := if w.n < w.want then s.bytes + w.n - w.want else s.bytes,
         writers := s.writers[i := Returned(w.len, w.n, w.failed || w.n < w.len)])
  }

  // What a writer holds of the counter beyond the bytes it has written.
  function Held(w: Phase): nat
    requires w.Written? ==> w.n <= w.want
  {
    if w.Reserved? then w.want else if w.Written? then w.want - w.n else 0
  }

  predicate WriterOk(s: State, w: Phase) {
    && (w.Loaded? ==> w.used < s.maxBytes)
    && (w.Reserved? ==> w.want <= w.len)
    && (w.Written? ==> w.n <= w.want <= w.len && (w.n < w.want ==> w.failed))
    && (w.Returned? ==> w.n <= w.len && (w.n < w.len ==> w.failed))
  }

  function TotalHeld(writers: seq<Phase>): nat
    requires forall i | 0 <= i < |writers| :: writers[i].Written? ==> writers[i].n <= writers[i].want
  {
    if writers == [] then 0 else Held(writers[0]) + TotalHeld(writers[1..])
  }

  ghost predicate Ok(s: State) {
    && (forall i | 0 <= i < |s.writers| :: WriterOk(s, s.writers[i]))
    && s.bytes == s.sent + TotalHeld(s.writers)
    && s.bytes <= (if s.maxBytes > 0 then s.maxBytes else 0)
  }

  lemma {:induction false} HeldUpdate(writers: seq<Phase>, i: nat, w: Phase)
    requires forall k | 0 <= k < |writers| :: writers[k].Written? ==> writers[k].n <= writers[k].want
    requires i < |writers| && (w.Written? ==> w.n <= w.want)
    ensures TotalHeld(writers[i := w]) == TotalHeld(writers) - Held(writers[i]) + Held(w)
    decreases |writers|
  {
    if i == 0 {
      assert writers[i := w][1..] == writers[1..];
    } else {
      assert writers[i := w][1..] == writers[1..][i - 1 := w];
      HeldUpdate(writers[1..], i - 1, w);
    }
  }

  lemma StepKeepsOk(s: State, e: Event)
    requires Ok(s) && Enabled(s, e)
    ensures Ok(Step(s, e))
  {
    var t := Step(s, e);
    StepKeepsWriter(s, e);
    HeldUpdate(s.writers, e.i, t.writers[e.i]);
  }

  // The writer that moved, and what its step means for the counter.
  lemma StepKeepsWriter(s: State, e: Event)
    requires Ok(s) && Enabled(s, e)
    ensures var t := Step(s, e);
            && t == s.(bytes := t.bytes, sent := t.sent, writers := s.writers[e.i := t.writers[e.i]])
            && WriterOk(t, t.writers[e.i])
            && t.bytes - s.bytes == t.sent - s.sent + Held(t.writers[e.i]) - Held(s.writers[e.i])
            && t.bytes <= (if s.maxBytes > 0 then s.maxBytes else 0)
  {
    assert WriterOk(s, s.writers[e.i]);
  }

  ghost predicate Feasible(s: State, run: seq<Event>)
    decreases |run|
  {
    run == [] || (Enabled(s, run[0]) && Feasible(Step(s, run[0]), run[1..]))
  }

  ghost function Exec(s: State, run: seq<Event>): State
    requires Feasible(s, run)
    decreases |run|
  {
    if run == [] then s else Exec(Step(s, run[0]), run[1..])
  }

  lemma {:induction false} RunKeepsOk(s: State, run: seq<Event>)
    requires Ok(s) && Feasible(s, run)
    ensures Ok(Exec(s, run)) && Exec(s, run).maxBytes == s.maxBytes && |Exec(s, run).writers| == |s.writers|
    decreases |run|
  {
    if run != [] {
      StepKeepsOk(s, run[0]);
      RunKeepsOk(Step(s, run[0]), run[1..]);
    }
  }

  lemma {:induction false} IdleHoldsNothing(writers: seq<Phase>)
    requires forall i | 0 <= i < |writers| :: !writers[i].Reserved? && !writers[i].Written?
    ensures TotalHeld(writers) == 0
  {
    if writers != [] { IdleHoldsNothing(writers[1..]); }
  }

  // However any number of writers take turns and whatever stops short or
  // fails: the counter is the bytes written plus what is held, it never exceeds
  // the budget, so neither do the bytes written, and nothing held is lost.
  lemma {:induction false} BudgetKept(maxBytes: int, n: nat, run: seq<Event>)
    requires Feasible(State(0, maxBytes, 0, seq(n, _ => Idle)), run)
    ensures var s := Exec(State(0, maxBytes, 0, seq(n, _ => Idle)), run);
            && Ok(s) && s.maxBytes == maxBytes
            && s.sent <= s.bytes <= (if maxBytes > 0 then maxBytes else 0)
            && ((forall i | 0 <= i < n :: i < |s.writers| && (s.writers[i].Idle? || s.writers[i].Returned?)) ==> s.bytes == s.sent)
  {
    var start := State(0, maxBytes, 0, seq(n, _ => Idle));
    IdleHoldsNothing(start.writers);
    RunKeepsOk(start, run);
    var s := Exec(start, run);
    if forall i | 0 <= i < n :: i < |s.writers| && (s.writers[i].Idle? || s.writers[i].Returned?) {
      IdleHoldsNothing(s.writers);
    }
  }

  // ----------------------------------------------------- Write in the proxy

  function Least(a: int, b: int): int {
    if a < b then a else b
  }

  class Proxy {
    const maxBytes: int
    var bytes: int
    var sent: nat
    var writers: seq<Phase>

    function Snapshot(): State
      reads this
    {
      State(bytes, maxBytes, sent, writers)
    }

    ghost predicate Valid()
      reads this
    {
      Ok(Snapshot())
    }

    constructor (maxBytes: int, n: nat)
      ensures Valid() && this.maxBytes == maxBytes && sent == 0 && |writers| == n
      ensures forall i | 0 <= i < n :: writers[i].Idle?
    {
      this.maxBytes, bytes, sent, writers := maxBytes, 0, 0, seq(n, _ => Idle);
      new;
      IdleHoldsNothing(writers);
    }

    // Steps of the other writers.
    method Others(i: nat, run: seq<Event>)
      requires Valid() && i < |writers|
      modifies this
      ensures Valid() && sent >= old(sent) && |writers| == |old(writers)| && writers[i] == old(writers)[i]
      ensures run == [] ==> Snapshot() == old(Snapshot())
    {
      for k := 0 to |run|
        invariant Valid() && sent >= old(sent) && |writers| == |old(writers)| && writers[i] == old(writers)[i]
        invariant k == 0 ==> Snapshot() == old(Snapshot())
      {
        if run[k].i != i && Enabled(Snapshot(), run[k]) {
          StepKeepsOk(Snapshot(), run[k]);
          var s := Step(Snapshot(), run[k]);
          bytes, sent, writers := s.bytes, s.sent, s.writers;
        }
      }
    }

    // One write among those of others, which run between its atomic steps. It
    // returns fewer bytes than given only together with an error. Alone it writes
    // what the budget leaves and the connection takes.
    method Write(i: nat, len: nat, between: seq<seq<Event>>, taken: nat, broken: bool, late: seq<Event>)
      returns (n: nat, failed: bool)
      requires Valid() && i < |writers| && (writers[i].Idle? || writers[i].Returned?)
      modifies this
      ensures Valid() && n <= len && (n < len ==> failed)
      ensures |writers| == |old(writers)| && writers[i] == Returned(len, n, failed)
      ensures sent >= old(sent) + n
      ensures between == [] && late == [] ==>
                var room := maxBytes - old(bytes);
                if room <= 0 then n == 0 && failed
                else && n == Least(taken, Least(len, room)) && (failed <==> broken || n < len)
                     && sent == old(sent) + n && bytes == old(bytes) + n
    {
      Advance(Call(i, len));
      var round := 0;
      while writers[i].Starting?
        invariant Valid() && |writers| == |old(writers)| && sent >= old(sent)
        invariant writers[i] == Starting(len) || (writers[i].Reserved? && writers[i].len == len)
        invariant between == [] && round == 0 ==> writers[i].Starting? && bytes == old(bytes) && sent == old(sent)
        invariant between == [] && round > 0 ==>
          && writers[i].Reserved? && 0 < maxBytes - old(bytes) && sent == old(sent)
          && writers[i].want == Least(len, maxBytes - old(bytes)) && bytes == old(bytes) + writers[i].want
        invariant round <= |between| + 1 && (round == |between| + 1 ==> writers[i].Reserved?)
        decreases |between| + 1 - round
      {
        Advance(Load(i));
        if writers[i].Returned? { return 0, true; }
        if round < |between| {
          Others(i, between[round]);
        }
        Advance(Swap(i));
        round := round + 1;
      }
      n := if taken < writers[i].want then taken else writers[i].want;
      Advance(Transfer(i, n, broken || n < writers[i].want));
      Others(i, late);
      Advance(Settle(i));
      failed := writers[i].failed;
    }

    method Advance(e: Event)
      requires Valid() && Enabled(Snapshot(), e)
      modifies this
      ensures Valid() && Snapshot() == Step(old(Snapshot()), e)
    {
      StepKeepsOk(Snapshot(), e);
      var w := writers[e.i];
      match e {
        case Call(i, len) => writers := writers[i := Starting(len)];
        case Load(i) =>
          var remaining := maxBytes - bytes;
          if remaining <= 0 {
            writers := writers[i := Returned(w.len, 0, true)];
          } else {
            writers := writers[i := Loaded(w.len, bytes)];
          }
        case Swap(i) =>
          var want: int := w.len;
          if want > maxBytes - w.used {
            want := maxBytes - w.used;
          }
          if bytes == w.used {
            bytes := w.used + want;
            writers := writers[i := Reserved(w.len, want)];
          } else {
            writers := writers[i := Starting(w.len)];
          }
        case Transfer(i, n, failed) =>
          sent := sent + n;
          writers := writers[i := Written(w.len, w.want, n, failed)];
        case Settle(i) =>
          if w.n < w.want {
            bytes := bytes + w.n - w.want;
          }
          writers := writers[i := Returned(w.len, w.n, w.failed || w.n < w.len)];
      }
    }
  }
}
