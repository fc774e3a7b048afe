/**
  The migration runner. Every transaction takes the same advisory lock, so the
  transactions of concurrent startups fall one after another in any order.
*/
module Migrations {
  datatype Migration = Migration(version: nat, name: string, emptySQL: bool)

  datatype Recorded = Recorded(version: nat, name: string)

  // The schema_migrations table: version is its primary key.
  type History = map<nat, string>

  // What discovery yields: positive versions in strictly ascending order.
  ghost predicate Ordered(ms: seq<Migration>) {
    && (forall i | 0 <= i < |ms| :: ms[i].version > 0)
    && (forall i, j | 0 <= i < j < |ms| :: ms[i].version < ms[j].version)
  }

  // Every recorded row is a known migration under its name.
  ghost predicate Accepts(local: seq<Migration>, history: History) {
    forall v <- history :: exists i :: 0 <= i < |local| && local[i].version == v && local[i].name == history[v]
  }

  method ValidateHistory(local: seq<Migration>, history: History) returns (valid: bool)
    requires Ordered(local)
    ensures valid <==> Accepts(local, history)
  {
    var byVersion: map<nat, Migration>, highest := map[], 0;
    for i := 0 to |local|
      invariant forall v <- byVersion :: exists k :: 0 <= k < i && local[k] == byVersion[v] && local[k].version == v
      invariant forall k | 0 <= k < i :: local[k].version in byVersion && byVersion[local[k].version] == local[k]
      invariant forall k | 0 <= k < i :: local[k].version <= highest
    {
      byVersion := byVersion[local[i].version := local[i]];
      if local[i].version > highest {
        highest := local[i].version;
      }
    }
    var todo := history.Keys;
    while todo != {}
      invariant todo <= history.Keys
      invariant forall v <- history.Keys - todo ::
        exists i :: 0 <= i < |local| && local[i].version == v && local[i].name == history[v]
      decreases todo
    {
      var version :| version in todo;
      todo := todo - {version};
      if version > highest { return false; }
      if version !in byVersion { return false; }
      if byVersion[version].name != history[version] {
        assert forall i | 0 <= i < |local| && local[i].version == version :: local[i] == byVersion[version];
        return false;
      }
    }
    return true;
  }

  // ------------------------------------------------------------- protocol

  datatype Status = Running | Succeeded | Failed

  // A runner knows the first `known` migrations and has passed `next` of them.
  datatype Runner = Runner(known: nat, next: nat, status: Status)

  // What becomes of a transaction: it is committed, it is rolled back, or it is
  // committed but the runner does not learn of it.
  datatype Outcome = Committed | RolledBack | ReplyLost

  datatype State = State(history: History, executed: seq<nat>, runners: seq<Runner>)

  function Advance(r: Runner): Runner {
    var next := if r.next < r.known then r.next + 1 else r.next;
    r.(next := next, status := if next == r.known then Succeeded else Running)
  }

  function Fail(r: Runner): Runner {
    r.(status := Failed)
  }

  // One transaction of runner k for the migration it has reached. A runner
  // without any migration only validates the history.
  ghost function Transact(all: seq<Migration>, s: State, k: nat, outcome: Outcome): State
    requires k < |s.runners| && s.runners[k].next <= s.runners[k].known <= |all|
  {
    var r := s.runners[k];
    var applies := r.next < r.known && all[r.next].version !in s.history;
    if outcome.RolledBack? || !Accepts(all[..r.known], s.history) || (applies && all[r.next].emptySQL) then
      s.(runners := s.runners[k := Fail(r)])
    else
      var seen := if outcome.ReplyLost? then Fail(r) else Advance(r);
      if applies then
        var m := all[r.next];
        State(s.history[m.version := m.name], s.executed + [m.version], s.runners[k := seen])
      else
        s.(runners := s.runners[k := seen])
  }

  // The history is the first n migrations of the list.
  ghost predicate Prefix(all: seq<Migration>, history: History, n: nat) {
    && n <= |all|
    && (forall v :: v in history <==> exists i :: 0 <= i < n && all[i].version == v)
    && (forall i | 0 <= i < n :: history[all[i].version] == all[i].name)
  }

  ghost predicate RunnerOk(all: seq<Migration>, r: Runner, n: nat) {
    && r.next <= r.known <= |all|
    && (!r.status.Failed? ==> r.next <= n)
    && (r.status.Succeeded? ==> r.next == r.known)
  }

  // From `start` recorded migrations on: what was executed is what was added.
  ghost predicate Ok(all: seq<Migration>, s: State, start: nat, n: nat) {
    && Ordered(all) && start <= n && Prefix(all, s.history, n)
    && |s.executed| == n - start
    && (forall i | 0 <= i < n - start :: s.executed[i] == all[start + i].version)
    && (forall i | 0 <= i < |s.runners| :: RunnerOk(all, s.runners[i], n))
  }

  // A runner accepts a recorded prefix exactly when it knows all of it.
  lemma AcceptsKnownPrefix(all: seq<Migration>, history: History, n: nat, known: nat)
    requires Ordered(all) && Prefix(all, history, n) && known <= |all|
    ensures Accepts(all[..known], history) <==> n <= known
  {
    if n <= known {
      forall v <- history
        ensures exists i :: 0 <= i < |all[..known]| && all[..known][i].version == v && all[..known][i].name == history[v]
      {
        var i :| 0 <= i < n && all[i].version == v;
        assert all[..known][i] == all[i];
      }
    } else {
      assert all[n - 1].version in history;
      assert forall i | 0 <= i < known :: all[..known][i] == all[i];
    }
  }

  lemma RecordedAre(all: seq<Migration>, history: History, n: nat, i: nat)
    requires Ordered(all) && Prefix(all, history, n) && i < |all|
    ensures all[i].version in history <==> i < n
  {
  }

  lemma Recording(all: seq<Migration>, history: History, n: nat)
    requires Ordered(all) && Prefix(all, history, n) && n < |all|
    ensures Prefix(all, history[all[n].version := all[n].name], n + 1)
  {
    var next := history[all[n].version := all[n].name];
    forall v ensures v in next <==> exists i :: 0 <= i < n + 1 && all[i].version == v {
      if v == all[n].version { assert all[n].version == v; }
    }
  }

  lemma OnlyRunner(all: seq<Migration>, s: State, start: nat, n: nat, k: nat, r: Runner)
    requires Ok(all, s, start, n) && k < |s.runners| && RunnerOk(all, r, n)
    ensures Ok(all, s.(runners := s.runners[k := r]), start, n)
  {
  }

  lemma Applied(all: seq<Migration>, s: State, start: nat, n: nat, k: nat, r: Runner)
    requires Ok(all, s, start, n) && n < |all| && k < |s.runners| && RunnerOk(all, r, n + 1)
    ensures Ok(all, State(s.history[all[n].version := all[n].name], s.executed + [all[n].version],
                          s.runners[k := r]), start, n + 1)
  {
    Recording(all, s.history, n);
  }

  // Every transaction either leaves history and executed migrations as they
  // were or adds the next migration of the list to both.
  lemma TransactKeeps(all: seq<Migration>, s: State, start: nat, n: nat, k: nat, outcome: Outcome)
    requires Ok(all, s, start, n) && k < |s.runners| && s.runners[k].status.Running?
    ensures var t := Transact(all, s, k, outcome);
            || (Ok(all, t, start, n) && t.history == s.history && t.executed == s.executed)
            || (n < |all| && Ok(all, t, start, n + 1))
  {
    var r, t := s.runners[k], Transact(all, s, k, outcome);
    AcceptsKnownPrefix(all, s.history, n, r.known);
    if r.next < r.known { RecordedAre(all, s.history, n, r.next); }
    if t == s.(runners := t.runners) {
      OnlyRunner(all, s, start, n, k, t.runners[k]);
    } else {
      Applied(all, s, start, n, k, t.runners[k]);
    }
  }

  lemma RecordedThen(all: seq<Migration>, s: State, start: nat, n: nat, k: nat, outcome: Outcome) returns (m: nat)
    requires Ok(all, s, start, n) && k < |s.runners| && s.runners[k].status.Running?
    ensures n <= m && Ok(all, Transact(all, s, k, outcome), start, m)
  {
    TransactKeeps(all, s, start, n, k, outcome);
    m := if Ok(all, Transact(all, s, k, outcome), start, n) then n else n + 1;
  }

  // A runner that knows less than what is recorded fails at its next
  // transaction and changes nothing else.
  lemma OlderRunnerFails(all: seq<Migration>, s: State, start: nat, n: nat, k: nat, outcome: Outcome)
    requires Ok(all, s, start, n) && k < |s.runners| && s.runners[k].status.Running?
    requires s.runners[k].known < n
    ensures Transact(all, s, k, outcome) == s.(runners := s.runners[k := s.runners[k].(status := Failed)])
  {
    AcceptsKnownPrefix(all, s.history, n, s.runners[k].known);
  }

  // A transaction advances its runner exactly when the runner learns of its
  // commit, knows everything recorded, and brings SQL for what is missing.
  lemma AdvancesExactly(all: seq<Migration>, s: State, start: nat, n: nat, k: nat, outcome: Outcome)
    requires Ok(all, s, start, n) && k < |s.runners| && s.runners[k].status.Running?
    ensures var r := s.runners[k];
            Transact(all, s, k, outcome).runners[k] == (if outcome.Committed? && n <= r.known
              && (r.next < n || r.next == r.known || !all[r.next].emptySQL) then Advance(r) else Fail(r))
  {
    var r := s.runners[k];
    AcceptsKnownPrefix(all, s.history, n, r.known);
    if r.next < r.known { RecordedAre(all, s.history, n, r.next); }
  }

  // ------------------------------------------------------------------ runs

  // Runner k takes its next transaction.
  datatype Turn = Turn(k: nat, outcome: Outcome)

  ghost predicate Possible(all: seq<Migration>, s: State, turns: seq<Turn>)
    decreases |turns|
  {
    turns == [] ||
      (&& turns[0].k < |s.runners| && s.runners[turns[0].k].status.Running?
       && s.runners[turns[0].k].next <= s.runners[turns[0].k].known <= |all|
       && Possible(all, Transact(all, s, turns[0].k, turns[0].outcome), turns[1..]))
  }

  ghost function After(all: seq<Migration>, s: State, turns: seq<Turn>): State
    requires Possible(all, s, turns)
    decreases |turns|
  {
    if turns == [] then s else After(all, Transact(all, s, turns[0].k, turns[0].outcome), turns[1..])
  }

  // In every interleaving of any number of runners the recorded history stays
  // a prefix of the list and only grows, what was executed is exactly what was
  // added, so nothing is executed twice, and a runner that succeeded finds its
  // whole list recorded.
  lemma {:induction false} HistoryStaysPrefix(all: seq<Migration>, s: State, start: nat, n: nat, turns: seq<Turn>)
    returns (m: nat)
    requires Ok(all, s, start, n) && Possible(all, s, turns)
    ensures n <= m && Ok(all, After(all, s, turns), start, m)
    ensures forall r <- After(all, s, turns).runners :: r.status.Succeeded? ==> r.known <= m
    decreases |turns|
  {
    if turns == [] {
      m := n;
    } else {
      var t := Transact(all, s, turns[0].k, turns[0].outcome);
      TransactKeeps(all, s, start, n, turns[0].k, turns[0].outcome);
      if Ok(all, t, start, n) {
        m := HistoryStaysPrefix(all, t, start, n, turns[1..]);
      } else {
        m := HistoryStaysPrefix(all, t, start, n + 1, turns[1..]);
      }
    }
  }

  lemma ExecutedOnce(all: seq<Migration>, s: State, start: nat, n: nat)
    requires Ok(all, s, start, n)
    ensures forall i, j | 0 <= i < j < |s.executed| :: s.executed[i] != s.executed[j]
  {
    forall i, j | 0 <= i < j < |s.executed|
      ensures s.executed[i] != s.executed[j]
    {
      assert s.executed[i] == all[start + i].version && s.executed[j] == all[start + j].version;
    }
  }

  // ------------------------------------------------------------------ gaps

  // A migration is missing before a recorded one.
  ghost predicate Gapped(local: seq<Migration>, history: History) {
    exists i, j :: 0 <= i < j < |local| && local[i].version !in history && local[j].version in history
  }

  ghost predicate Unknown(local: seq<Migration>, history: History, v: nat)
    requires v in history
  {
    forall i | 0 <= i < |local| && local[i].version == v :: local[i].name != history[v]
  }

  // A gap alone does not make a startup fail: a history with one is rejected
  // exactly if it has a row that is unknown besides.
  lemma GapsAccepted(local: seq<Migration>, history: History)
    requires Ordered(local) && Gapped(local, history)
    ensures !Accepts(local, history) <==> exists v :: v in history && Unknown(local, history, v)
  {
  }

  // An accepted history is a prefix exactly if it has no gap.
  lemma AcceptedPrefix(local: seq<Migration>, history: History)
    requires Ordered(local) && Accepts(local, history)
    ensures (exists n :: Prefix(local, history, n)) <==> !Gapped(local, history)
  {
    if n :| Prefix(local, history, n) {
      forall i, j | 0 <= i < j < |local| && local[j].version in history ensures local[i].version in history {
        RecordedAre(local, history, n, i);
        RecordedAre(local, history, n, j);
      }
    }
    if !Gapped(local, history) {
      var n := FirstMissing(local, history);
      assert Prefix(local, history, n);
    }
  }

  lemma FirstMissing(local: seq<Migration>, history: History) returns (n: nat)
    requires Ordered(local) && Accepts(local, history) && !Gapped(local, history)
    ensures Prefix(local, history, n)
  {
    n := 0;
    while n < |local| && local[n].version in history
      invariant n <= |local| && forall i | 0 <= i < n :: local[i].version in history
    {
      n := n + 1;
    }
    PrefixUpTo(local, history, n);
  }

  lemma PrefixUpTo(local: seq<Migration>, history: History, n: nat)
    requires Ordered(local) && Accepts(local, history) && !Gapped(local, history)
    requires n <= |local| && forall i | 0 <= i < n :: local[i].version in history
    requires n < |local| ==> local[n].version !in history
    ensures Prefix(local, history, n)
  {
    forall v <- history ensures exists i :: 0 <= i < n && local[i].version == v {
      var i :| 0 <= i < |local| && local[i].version == v && local[i].name == history[v];
      assert i < n;
    }
  }

  ghost function Missing(all: seq<Migration>, history: History, i: nat, known: nat): seq<nat>
    requires i <= known <= |all|
    decreases known - i
  {
    if i == known then []
    else (if all[i].version in history then [] else [all[i].version]) + Missing(all, history, i + 1, known)
  }

  ghost function Alone(k: nat, n: nat): seq<Turn> {
    if n == 0 then [] else [Turn(k, Committed)] + Alone(k, n - 1)
  }

  ghost predicate HasSQL(all: seq<Migration>, history: History, known: nat)
    requires known <= |all|
  {
    forall i | 0 <= i < known :: all[i].version in history || !all[i].emptySQL
  }

  lemma MissingLater(all: seq<Migration>, history: History, i: nat, j: nat, known: nat)
    requires Ordered(all) && i < j <= known <= |all|
    ensures Missing(all, history, j, known) == Missing(all, history[all[i].version := all[i].name], j, known)
    decreases known - j
  {
    if j < known { MissingLater(all, history, i, j + 1, known); }
  }

  lemma RecordOne(local: seq<Migration>, history: History, i: nat)
    requires Ordered(local) && Accepts(local, history) && i < |local|
    ensures Accepts(local, history[local[i].version := local[i].name])
  {
    var next := history[local[i].version := local[i].name];
    forall v <- next ensures exists j :: 0 <= j < |local| && local[j].version == v && local[j].name == next[v] {
      if v == local[i].version { assert local[i].name == next[v]; }
    }
  }

  // A startup that has not passed all of its migrations.
  ghost predicate Starting(all: seq<Migration>, s: State, k: nat) {
    && Ordered(all) && k < |s.runners| && s.runners[k].status.Running?
    && s.runners[k].next < s.runners[k].known <= |all| && HasSQL(all, s.history, s.runners[k].known)
    && Accepts(all[..s.runners[k].known], s.history)
  }

  lemma OneAlone(all: seq<Migration>, s: State, k: nat)
    requires Starting(all, s, k)
    ensures var r, t := s.runners[k], Transact(all, s, k, Committed);
            && t.runners == s.runners[k := Advance(r)]
            && t.executed == s.executed + (if all[r.next].version in s.history then [] else [all[r.next].version])
            && Missing(all, t.history, r.next + 1, r.known) == Missing(all, s.history, r.next + 1, r.known)
            && (r.next + 1 < r.known ==> Starting(all, t, k))
  {
    var r := s.runners[k];
    assert all[..r.known][r.next] == all[r.next];
    if all[r.next].version !in s.history {
      RecordOne(all[..r.known], s.history, r.next);
      MissingLater(all, s.history, r.next, r.next + 1, r.known);
    }
  }

  // What a whole startup comes to.
  ghost predicate StartsUp(all: seq<Migration>, s: State, k: nat, turns: seq<Turn>)
    requires k < |s.runners| && s.runners[k].next <= s.runners[k].known <= |all|
  {
    var r := s.runners[k];
    && Possible(all, s, turns)
    && After(all, s, turns).executed == s.executed + Missing(all, s.history, r.next, r.known)
    && After(all, s, turns).runners == s.runners[k := Runner(r.known, r.known, Succeeded)]
  }

  lemma LastAlone(all: seq<Migration>, s: State, k: nat)
    requires Starting(all, s, k) && s.runners[k].next + 1 == s.runners[k].known
    ensures StartsUp(all, s, k, [Turn(k, Committed)])
  {
    OneAlone(all, s, k);
    assert [Turn(k, Committed)][1..] == [];
  }

  lemma MoreAlone(all: seq<Migration>, s: State, k: nat, turns: seq<Turn>)
    requires Starting(all, s, k) && s.runners[k].next + 1 < s.runners[k].known
    requires Starting(all, Transact(all, s, k, Committed), k) && StartsUp(all, Transact(all, s, k, Committed), k, turns)
    ensures StartsUp(all, s, k, [Turn(k, Committed)] + turns)
  {
    OneAlone(all, s, k);
    assert ([Turn(k, Committed)] + turns)[1..] == turns;
  }

  // Whatever accepted history a startup begins with, gaps or not, it executes
  // all that is missing, in the order of the list, and succeeds; so what is
  // missing before a recorded migration is executed after it.
  lemma {:induction false} StartupFillsGaps(all: seq<Migration>, s: State, k: nat)
    requires Starting(all, s, k)
    ensures StartsUp(all, s, k, Alone(k, s.runners[k].known - s.runners[k].next))
    decreases s.runners[k].known - s.runners[k].next
  {
    var left := s.runners[k].known - s.runners[k].next;
    if left == 1 {
      LastAlone(all, s, k);
      assert Alone(k, 1) == [Turn(k, Committed)] + Alone(k, 0);
    } else {
      OneAlone(all, s, k);
      StartupFillsGaps(all, Transact(all, s, k, Committed), k);
      MoreAlone(all, s, k, Alone(k, left - 1));
    }
  }

  // The second migration is recorded without the first.
  lemma GapExample()
    ensures var all := [Migration(1, "one", false), Migration(2, "two", false)];
            var s := State(map[2 := "two"], [], [Runner(2, 0, Running)]);
            && Ordered(all) && Gapped(all, s.history) && Accepts(all, s.history)
            && Possible(all, s, Alone(0, 2)) && After(all, s, Alone(0, 2)).executed == [1]
            && After(all, s, Alone(0, 2)).runners[0].status.Succeeded?
  {
    var all := [Migration(1, "one", false), Migration(2, "two", false)];
    var s := State(map[2 := "two"], [], [Runner(2, 0, Running)]);
    assert all[0].version !in s.history && all[1].version in s.history;
    assert all[1].name == s.history[2];
    assert all[..2] == all;
    StartupFillsGaps(all, s, 0);
    assert Missing(all, s.history, 1, 2) == [];
  }

  // ------------------------------------------------------- Run in the source

  class Database {
    const all: seq<Migration>
    var history: History
    var runners: seq<Runner>
    ghost var executed: seq<nat>
    ghost var start: nat
    ghost var recorded: nat

    ghost function Snapshot(): State
      reads this
    {
      State(history, executed, runners)
    }

    ghost predicate Valid()
      reads this
    {
      Ok(all, Snapshot(), start, recorded)
    }

    constructor (all: seq<Migration>, history: History, runners: seq<Runner>, ghost n: nat)
      requires Ordered(all) && Prefix(all, history, n)
      requires forall r <- runners :: r.status.Running? && r.next == 0 && r.known <= |all|
      ensures Valid() && this.all == all && recorded == n && Snapshot() == State(history, [], runners)
    {
      this.all, this.history, this.runners := all, history, runners;
      executed, start, recorded := [], n, n;
    }

    ghost method Count(k: nat, outcome: Outcome)
      requires Valid() && k < |runners| && runners[k].status.Running?
      modifies this`recorded
      ensures recorded >= old(recorded) && Ok(all, Transact(all, Snapshot(), k, outcome), start, recorded)
    {
      recorded := RecordedThen(all, Snapshot(), start, recorded, k, outcome);
    }

    // A locked transaction of runner k, which rolls back unless it commits.
    method Transaction(k: nat, outcome: Outcome)
      requires Valid() && k < |runners| && runners[k].status.Running?
      modifies this
      ensures recorded >= old(recorded) && Ok(all, Transact(all, old(Snapshot()), k, outcome), start, recorded)
      ensures start == old(start) && Snapshot() == Transact(all, old(Snapshot()), k, outcome)
    {
      Count(k, outcome);
      var r := runners[k];
      var valid := ValidateHistory(all[..r.known], history);
      runners := runners[k := Fail(r)];
      if outcome.RolledBack? || !valid { return; }
      if r.next < r.known && all[r.next].version !in history {
        var migration := all[r.next];
        if migration.emptySQL { return; }
        history := history[migration.version := migration.name];
        executed := executed + [migration.version];
      }
      if outcome.Committed? {
        runners := runners[k := Advance(r)];
      }
    }

    // Transactions of the other runners.
    method Others(turns: seq<Turn>, k: nat)
      requires Valid() && k < |runners|
      modifies this
      ensures Valid() && recorded >= old(recorded)
      ensures |runners| == |old(runners)| && runners[k] == old(runners[k])
    {
      for i := 0 to |turns|
        invariant Valid() && recorded >= old(recorded)
        invariant |runners| == |old(runners)| && runners[k] == old(runners[k])
      {
        if turns[i].k != k && turns[i].k < |runners| && runners[turns[i].k].status.Running? {
          Transaction(turns[i].k, turns[i].outcome);
        }
      }
    }

    // A whole startup of runner k among the transactions of the others.
    method Run(k: nat, outcome: nat -> Outcome, between: nat -> seq<Turn>) returns (ok: bool)
      requires Valid() && k < |runners| && runners[k].status.Running? && runners[k].next == 0
      modifies this
      ensures Valid() && recorded >= old(recorded)
      ensures ok ==> forall i | 0 <= i < old(runners[k].known) :: all[i].version in history && history[all[i].version] == all[i].name
      ensures old(runners[k].known < recorded) ==> !ok
      ensures var known := old(runners[k].known);
              (forall i | 0 <= i <= known :: outcome(i).Committed?) && recorded <= known && HasSQL(all, map[], known) ==> ok
    {
      var known := runners[k].known;
      if known == 0 {
        Others(between(0), k);
        AcceptsKnownPrefix(all, history, recorded, known);
        Transaction(k, outcome(0));
        return runners[k].status.Succeeded?;
      }
      for i := 0 to known
        invariant Valid() && recorded >= old(recorded)
        invariant k < |runners| && runners[k] == Runner(known, i, if i == known then Succeeded else Running)
        invariant i > 0 ==> old(recorded) <= known
      {
        ok := ApplyOne(k, outcome(i), between(i));
        if !ok { return; }
      }
      return true;
    }

    // The transaction of a runner for its next migration, after others.
    method ApplyOne(k: nat, outcome: Outcome, turns: seq<Turn>) returns (ok: bool)
      requires Valid() && k < |runners| && runners[k].status.Running? && runners[k].next < runners[k].known
      modifies this
      ensures Valid() && recorded >= old(recorded) && k < |runners|
      ensures ok ==> runners[k] == Advance(old(runners[k])) && old(recorded) <= runners[k].known
      ensures outcome.Committed? && recorded <= old(runners[k].known) && HasSQL(all, map[], old(runners[k].known)) ==> ok
    {
      Others(turns, k);
      AcceptsKnownPrefix(all, history, recorded, runners[k].known);
      Transaction(k, outcome);
      return !runners[k].status.Failed?;
    }
  }
}
