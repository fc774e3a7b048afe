/** The library's workers over the tables they update in place. */
module Libraries {
  import opened Domain
  import opened Catalogue
  import opened LibraryProtocol
  import CaptureLeases
  import LibraryEffects

  // What one index pass came to.
  datatype Pass = Locked | NothingToDo | Unsuccessful | Indexed(id: ItemId) | Unindexed(id: ItemId)

  // Steps of everybody but the index worker, the search engine included.
  predicate Foreign(e: Event) {
    !OnIndex(e) || e.IndexServe?
  }

  lemma {:induction false} RunOn(s: State, run: seq<Event>, more: seq<Event>)
    requires Feasible(s, run) && Feasible(Exec(s, run), more)
    ensures Feasible(s, run + more) && Exec(s, run + more) == Exec(Exec(s, run), more)
    decreases |run|
  {
    if run == [] {
      assert run + more == more;
    } else {
      assert (run + more)[1..] == run[1..] + more;
      RunOn(Step(s, run[0]), run[1..], more);
    }
  }

  class Library {
    var items: map<ItemId, Item>
    var captures: map<string, Capture>
    var sources: map<(string, string), Source>
    var tombstones: set<string>
    var deletions: set<ItemId>
    var index: map<ItemId, Document>
    var tasks: seq<Op>
    var work: Work
    var reading: Option<Reading>
    var workers: seq<Worker>
    var ids: set<ItemId>
    ghost var log: seq<Event>

    function Snapshot(): State
      reads this
    {
      State(items, captures, sources, tombstones, deletions, index, tasks, work, reading, workers, ids)
    }

    // The tables are in the state the logged steps lead to.
    ghost predicate Valid()
      reads this
    {
      Feasible(START, log) && Snapshot() == Exec(START, log)
    }

    constructor ()
      ensures Valid() && Snapshot() == START && log == []
    {
      items, captures, sources, tombstones, deletions := map[], map[], map[], {}, {};
      index, tasks, work, reading, workers, ids, log := map[], [], Idle, None, [], {}, [];
    }

    // Every state of the tables satisfies what holds of all runs.
    lemma Consistent()
      requires Valid()
      ensures IndexOk(Snapshot()) && CaptureLeases.LeasesOk(Snapshot()) && CaptureLeases.FoldersOk(Snapshot())
    {
      RunKeepsIndex(START, log);
      CaptureLeases.RunKeepsLeases(START, log);
      CaptureLeases.FoldersFollowBookmarks(START, log);
    }

    ghost method Note(before: State, e: Event)
      requires Feasible(START, log) && Exec(START, log) == before && Enabled(before, e) && Snapshot() == Step(before, e)
      modifies this`log
      ensures Valid() && log == old(log) + [e]
    {
      RunFirst(before, e, []);
      assert [e] + [] == [e];
      RunOn(START, log, [e]);
      log := log + [e];
    }

    // Steps of others; one that cannot be taken at its moment is left out.
    method Meanwhile(run: seq<Event>)
      requires Valid() && forall e <- run :: Foreign(e)
      modifies this
      ensures Valid() && old(log) <= log
      ensures forall k | |old(log)| <= k < |log| :: log[k] in run
      ensures Settles(old(work), work) && |old(workers)| <= |workers| && workers[..|old(workers)|] == old(workers)
      ensures run == [] ==> Snapshot() == old(Snapshot())
      ensures |run| == 1 && Enabled(old(Snapshot()), run[0]) ==> Snapshot() == Step(old(Snapshot()), run[0])
    {
      for i := 0 to |run|
        invariant Valid() && old(log) <= log && Settles(old(work), work)
        invariant forall k | |old(log)| <= k < |log| :: log[k] in run
        invariant |old(workers)| <= |workers| && workers[..|old(workers)|] == old(workers)
        invariant i == 0 ==> Snapshot() == old(Snapshot())
        invariant i == 1 && Enabled(old(Snapshot()), run[0]) ==> Snapshot() == Step(old(Snapshot()), run[0])
      {
        var s := Snapshot();
        if Enabled(s, run[i]) {
          ForeignSettles(s, run[i]);
          CaptureLeases.StepWorkers(s, run[i]);
          Become(Step(s, run[i]));
          Note(s, run[i]);
        }
      }
    }

    method Become(s: State)
      modifies this
      ensures Snapshot() == s && log == old(log)
    {
      items, captures, sources, tombstones, deletions := s.items, s.captures, s.sources, s.tombstones, s.deletions;
      index, tasks, work, reading, workers, ids := s.index, s.tasks, s.work, s.reading, s.workers, s.ids;
    }

    // ------------------------------------------------------------ captures

    method ClaimCapture(now: Time, token: Token, pick: Option<ItemId>) returns (k: nat)
      requires Valid() && pick.Some? && pick.value in items && CanCapture(items[pick.value], now)
      requires forall w <- workers :: w.token != token
      modifies this`items, this`workers, this`log
      ensures Valid() && log == old(log) + [LibraryProtocol.ClaimCapture(pick.value, token, now)]
      ensures k == |old(workers)| && k < |workers| && workers[k].item == pick.value && workers[k].token == token
      ensures Snapshot() == Lease(old(Snapshot()), pick.value, token, now)
    {
      ghost var before := Snapshot();
      var id := pick.value;
      items := items[id := items[id].(status := Capturing, token := Some(token), until := now + CAPTURE_LEASE,
                                      attempts := items[id].attempts + 1)];
      k := |workers|;
      workers := workers + [Worker(id, token, items[id].attempts)];
      assert Snapshot() == Lease(before, id, token, now);
      Note(before, LibraryProtocol.ClaimCapture(id, token, now));
    }

    method FailCapture(k: nat, now: Time)
      requires Valid() && k < |workers|
      modifies this`items, this`log
      ensures Valid() && log == old(log) + [CaptureFails(k, now)]
      ensures Snapshot() == Fail(old(Snapshot()), workers[k], now)
    {
      ghost var before := Snapshot();
      EndCapture(workers[k], now);
      Note(before, CaptureFails(k, now));
    }

    // Without a page the item is queued again, at most three times in all.
    method EndCapture(w: Worker, now: Time)
      modifies this`items
      ensures Snapshot() == Fail(old(Snapshot()), w, now)
    {
      if w.item in items && items[w.item].token == Some(w.token) {
        var i := items[w.item];
        var status := NoPage;
        if w.attempts < CAPTURE_ATTEMPTS {
          status := Waiting;
        }
        items := items[w.item := i.(status := status, next := now + CAPTURE_PAUSE, token := None, until := 0,
                                    version := i.version + 1)];
      }
    }

    // One transaction under the row's lock: a lease must still be current, a
    // capture known already is left alone, and a blocked page keeps the text.
    method PersistCapture(id: ItemId, lease: Option<Token>, capture: string, page: Page, browser: bool, now: Time,
        works: bool)
      modifies this`items, this`captures
      ensures Snapshot() == Persist(old(Snapshot()), id, lease, capture, page, browser, now, works)
      ensures if id in old(items) && (lease.Some? ==> old(items)[id].token == lease) && capture !in old(captures) && works
              then && captures == old(captures)[capture := Capture(id, page, browser)]
                   && id in items && items == old(items)[id := items[id]]
                   && LibraryEffects.Stores(old(items)[id], items[id], page, now)
              else items == old(items) && captures == old(captures)
    {
      if id !in items { return; }
      if lease.Some? && items[id].token != lease { return; }
      if capture in captures { return; }
      if !works { return; }
      var i := items[id];
      var title, text := page.title, page.text;
      if i.titleEdited || page.title == "" || page.found.Challenge? {
        title := i.title;
      }
      if page.found.Challenge? && i.text != "" {
        text := i.text;
      }
      var stored := i.(status := Got(page.found), token := None, until := 0, title := title, text := text,
                       enrichment := Pending, version := i.version + 1, updatedAt := now);
      captures := captures[capture := Capture(id, page, browser)];
      items := items[id := stored];
    }

    // The item due first among those that can be captured and that no other
    // transaction has locked.
    ghost predicate Picked(now: Time, locked: set<ItemId>, pick: Option<ItemId>)
      reads this
    {
      if pick.None? then forall id <- items :: CanCapture(items[id], now) ==> id in locked
      else
        && pick.value in items && CanCapture(items[pick.value], now) && pick.value !in locked
        && forall id <- items :: CanCapture(items[id], now) && id !in locked ==> items[pick.value].next <= items[id].next
    }

    // A leased capture with anything happening while the page is fetched. If
    // the lease was lost by then, the result changes nothing.
    method CaptureOnce(now: Time, token: Token, locked: set<ItemId>, pick: Option<ItemId>, during: seq<Event>,
                       page: Option<Page>, capture: string, end: Time, works: bool)
      returns (worked: bool, ghost before: State)
      requires Valid() && forall w <- workers :: w.token != token
      requires Picked(now, locked, pick)
      requires forall e <- during :: Foreign(e)
      modifies this
      ensures Valid() && old(log) <= log
      ensures worked <==> exists id :: id in old(items) && CanCapture(old(items)[id], now) && id !in locked
      ensures !worked ==> Snapshot() == old(Snapshot())
      ensures worked ==> |old(workers)| < |before.workers|
      ensures worked && !CaptureLeases.Holds(before, |old(workers)|) ==> Snapshot() == before
      ensures worked && CaptureLeases.Holds(before, |old(workers)|) && page.Some? && works
              && capture !in before.captures ==>
                && captures == before.captures[capture := Capture(pick.value, page.value, false)]
                && pick.value in before.items && pick.value in items
                && LibraryEffects.Stores(before.items[pick.value], items[pick.value], page.value, end)
      ensures worked && CaptureLeases.Holds(before, |old(workers)|) && page.None? ==>
                && pick.value in before.items && pick.value in items
                && items[pick.value] == before.items[pick.value].(
                     status := if before.workers[|old(workers)|].attempts < 3 then Waiting else NoPage,
                     next := end + 30_000_000, token := None, until := 0,
                     version := before.items[pick.value].version + 1)
      ensures worked && during == [] ==>
                && CaptureLeases.Holds(before, |old(workers)|) && before.captures == old(captures)
                && pick.value in before.items && before.items[pick.value].text == old(items)[pick.value].text
    {
      before := Snapshot();
      if pick.None? { return false, before; }
      var k := ClaimCapture(now, token, pick);
      Meanwhile(during);
      before := Snapshot();
      EndOnce(k, page, capture, end, works);
      return true, before;
    }

    // The page of worker k, or that there is none.
    method EndOnce(k: nat, page: Option<Page>, capture: string, end: Time, works: bool)
      requires Valid() && k < |workers|
      modifies this`items, this`captures, this`log
      ensures Valid() && old(log) <= log
      ensures !CaptureLeases.Holds(old(Snapshot()), k) ==> Snapshot() == old(Snapshot())
      ensures var id := workers[k].item;
              CaptureLeases.Holds(old(Snapshot()), k) && page.Some? && works && capture !in old(captures) ==>
                && captures == old(captures)[capture := Capture(id, page.value, false)]
                && id in items && LibraryEffects.Stores(old(items)[id], items[id], page.value, end)
      ensures var id := workers[k].item;
              CaptureLeases.Holds(old(Snapshot()), k) && page.None? ==>
                && id in items
                && items[id] == old(items)[id].(
                     status := if workers[k].attempts < 3 then Waiting else NoPage,
                     next := end + 30_000_000, token := None, until := 0, version := old(items)[id].version + 1)
    {
      ghost var before := Snapshot();
      if !CaptureLeases.Holds(before, k) {
        CaptureLeases.StaleWorker(before, k, capture, if page.Some? then page.value else Page(Whole, "", ""), end, works);
      }
      if page.None? {
        FailCapture(k, end);
      } else {
        PersistCapture(workers[k].item, Some(workers[k].token), capture, page.value, false, end, works);
        Note(before, CaptureEnds(k, capture, page.value, end, works));
      }
    }

    // ------------------------------------------------------------ the index

    method ReadNext() returns (found: bool)
      requires Valid() && work.Idle?
      modifies this`work, this`log
      ensures Valid() && old(log) <= log && (found ==> work.Fetched?) && (!found ==> work.Idle? && log == old(log))
      ensures found <==> deletions != {} || exists id :: id in items && items[id].indexed < items[id].version
      ensures found && deletions != {} ==> work.op.Remove?
      ensures found && deletions == {} ==> work.op.id in items && work.version == items[work.op.id].version
      ensures found && deletions == {} ==> work.op == Put(work.op.id, Project(work.op.id, items[work.op.id]))
    {
      ghost var before := Snapshot();
      if deletions != {} {
        var id :| id in deletions;
        work := Fetched(Remove(id), 0);
        Note(before, IndexRead(id));
        return true;
      }
      var behind := set id | id in items && items[id].indexed < items[id].version;
      if behind == {} {
        assert forall id | id in items && items[id].indexed < items[id].version :: id in behind;
        return false;
      }
      var id :| id in behind;
      work := Fetched(Put(id, Project(id, items[id])), items[id].version);
      Note(before, IndexRead(id));
      return true;
    }

    method Send()
      requires Valid() && work.Fetched?
      modifies this`work, this`tasks, this`log
      ensures Valid() && log == old(log) + [IndexSend] && work == Sent(old(work).op, old(work).version)
      ensures tasks == old(tasks) + [old(work).op]
    {
      ghost var before := Snapshot();
      tasks := tasks + [work.op];
      work := Sent(work.op, work.version);
      Note(before, IndexSend);
    }

    method Acknowledge()
      requires Valid() && work.Finished?
      modifies this`work, this`items, this`deletions, this`log
      ensures Valid() && log == old(log) + [IndexAcknowledge] && work.Idle?
      ensures old(work).op.Remove? ==> deletions == old(deletions) - {old(work).op.id} && items == old(items)
      ensures old(work).op.Put? ==> deletions == old(deletions) && items.Keys == old(items).Keys
      ensures old(work).op.Put? && old(work).op.id in items ==> items[old(work).op.id].indexed == old(work).version
    {
      ghost var before := Snapshot();
      match work.op {
        case Remove(id) => deletions := deletions - {id};
        case Put(id, _) =>
          if id in items {
            items := items[id := items[id].(indexed := work.version, indexError := false)];
          }
      }
      work := Idle;
      Note(before, IndexAcknowledge);
    }

    method GiveUp()
      requires Valid() && !work.Idle?
      modifies this`work, this`items, this`log
      ensures Valid() && log == old(log) + [IndexFails] && work.Idle? && deletions == old(deletions)
      ensures items == (if old(work).op.Put? && old(work).op.id in old(items)
                        then old(items)[old(work).op.id := old(items)[old(work).op.id].(indexError := true)]
                        else old(items))
    {
      ghost var before := Snapshot();
      if work.op.Put? && work.op.id in items {
        items := items[work.op.id := items[work.op.id].(indexError := true)];
      }
      work := Idle;
      Note(before, IndexFails);
    }

    // One pass under the advisory lock, with any steps of others before the
    // task is queued and before the search engine is heard to have done it.
    method IndexOnce(first: seq<Event>, sent: bool, second: seq<Event>, heard: bool) returns (pass: Pass)
      requires Valid() && forall e <- first + second :: Foreign(e)
      modifies this
      ensures Valid() && old(log) <= log
      ensures pass.Locked? <==> !old(work).Idle?
      ensures pass.Locked? || work.Idle?
      ensures pass.NothingToDo? <==> old(work).Idle? && old(deletions) == {} && forall i <- old(items).Values :: i.indexed >= i.version
      ensures pass.Unindexed? ==> pass.id !in deletions && pass.id !in index && old(deletions) != {}
      ensures pass.Indexed? ==> old(deletions) == {} && pass.id in old(items) && pass.id in index
      ensures pass.Indexed? ==> index[pass.id] == Project(pass.id, old(items)[pass.id])
      ensures pass.Indexed? && pass.id in items ==> items[pass.id].indexed == old(items)[pass.id].version
      ensures old(work).Idle? && old(tasks) == [] && first == [] && sent && second == [IndexServe(true)] && heard ==>
                !pass.Unsuccessful?
    {
      if !work.Idle? { return Locked; }
      var found := ReadNext();
      if !found { return NothingToDo; }
      pass := Carry(first, sent, second, heard);
    }

    // Queues the task that was read and waits for the search engine.
    method Carry(first: seq<Event>, sent: bool, second: seq<Event>, heard: bool) returns (pass: Pass)
      requires Valid() && work.Fetched? && forall e <- first + second :: Foreign(e)
      modifies this
      ensures Valid() && old(log) <= log && work.Idle?
      ensures match pass
              case Unindexed(id) => old(work).op == Remove(id) && id !in deletions && id !in index
              case Indexed(id) => && old(work).op.Put? && id == old(work).op.id && id in index
                                  && index[id] == old(work).op.doc
                                  && (id in items ==> items[id].indexed == old(work).version)
              case Unsuccessful => true
              case _ => false
      ensures old(tasks) == [] && first == [] && sent && second == [IndexServe(true)] && heard ==> !pass.Unsuccessful?
    {
      Meanwhile(first);
      if !sent || !work.Fetched? {
        GiveUp();
        return Unsuccessful;
      }
      Send();
      Meanwhile(second);
      pass := Conclude(heard);
    }

    method Conclude(heard: bool) returns (pass: Pass)
      requires Valid() && !work.Idle?
      modifies this`work, this`items, this`deletions, this`log
      ensures Valid() && old(log) <= log && work.Idle?
      ensures match pass
              case Unindexed(id) => old(work).op == Remove(id) && id !in deletions && id !in index
              case Indexed(id) => old(work).op.Put? && id == old(work).op.id && index == old(index) && id in index
                                  && index[id] == old(work).op.doc
                                    && (id in items ==> items[id].indexed == old(work).version)
              case Unsuccessful => && deletions == old(deletions)
                                   && forall id <- items :: old(work).op.Put? && id == old(work).op.id ==> items[id].indexError
              case _ => false
      ensures pass.Unsuccessful? <==> !(old(work).Finished? && heard)
    {
      if !work.Finished? || !heard {
        GiveUp();
        return Unsuccessful;
      }
      Consistent();
      var op := work.op;
      Acknowledge();
      return if op.Remove? then Unindexed(op.id) else Indexed(op.id);
    }

    // ------------------------------------------------------------- deletion

    method Delete(id: ItemId) returns (ok: bool)
      requires Valid()
      modifies this`items, this`captures, this`sources, this`tombstones, this`deletions, this`log
      ensures Valid() && log == old(log) + [LibraryProtocol.Delete(id)] && (ok <==> id in old(items))
      ensures Snapshot() == DeleteItem(old(Snapshot()), id)
    {
      ghost var before := Snapshot();
      ok := id in items;
      if ok {
        DropRows(id);
      }
      Note(before, LibraryProtocol.Delete(id));
    }

    // Captures go with their item; its bookmarks stay, under no item.
    method DropRows(id: ItemId)
      requires id in items
      modifies this`items, this`captures, this`sources, this`tombstones, this`deletions
      ensures Snapshot() == DeleteItem(old(Snapshot()), id)
    {
      var url := items[id].url;
      if url != "" {
        tombstones := tombstones + {url};
      }
      deletions := deletions + {id};
      items := items - {id};
      captures := map c | c in captures && captures[c].item != id :: captures[c];
      sources := map k | k in sources :: if sources[k].item == Some(id) then sources[k].(item := None) else sources[k];
    }
  }

  // While others act, the index worker's own state only moves on from sent to done.
  ghost predicate Settles(before: Work, after: Work) {
    after == before || (before.Sent? && after == Finished(before.op, before.version))
  }

  lemma ForeignSettles(s: State, e: Event)
    requires Enabled(s, e) && Foreign(e)
    ensures Settles(s.work, Step(s, e).work)
  {
  }
}
