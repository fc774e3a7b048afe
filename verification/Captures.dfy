/** Capture leases, enrichment and folders of the library, over whole runs. */
module CaptureLeases {
  import opened Domain
  import opened Catalogue
  import opened LibraryProtocol

  ghost predicate Holds(s: State, k: nat)
    requires k < |s.workers|
  {
    s.workers[k].item in s.items && s.items[s.workers[k].item].token == Some(s.workers[k].token)
  }

  predicate Uncaptured(i: Item) {
    i.token.None? && !i.status.Capturing?
  }

  // An item is being captured exactly when it holds the token of a worker of its own.
  ghost predicate ItemLeased(s: State, id: ItemId)
    requires id in s.items
  {
    var i := s.items[id];
    && id in s.ids
    && (i.status.Capturing? <==> i.token.Some?)
    && (i.token.Some? ==> exists k :: 0 <= k < |s.workers| && s.workers[k].item == id && Some(s.workers[k].token) == i.token)
  }

  ghost predicate LeasesOk(s: State) {
    && (forall id <- s.items :: ItemLeased(s, id))
    && (forall k | 0 <= k < |s.workers| :: s.workers[k].item in s.ids)
    && (forall j, k | 0 <= j < k < |s.workers| :: s.workers[j].token != s.workers[k].token)
  }

  // In one step an item keeps its lease, is without one, or is claimed anew.
  ghost predicate Moves(s: State, e: Event, t: State, id: ItemId)
    requires id in t.items
  {
    && id in t.ids
    && (id in s.items || id !in s.ids)
    && (|| (id in s.items && t.items[id].token == s.items[id].token && t.items[id].status == s.items[id].status)
        || Uncaptured(t.items[id])
        || (e.ClaimCapture? && e.id == id && t.items[id].token == Some(e.token) && t.items[id].status.Capturing?))
  }

  lemma AttachMoves(s: State, t: State, target: ItemId, url: string, title: string, o: Origin, now: Time, id: ItemId)
    requires t == Attach(s, target, url, title, o, now) && id in t.items
    ensures id in s.items && t.items[id].token == s.items[id].token && t.items[id].status == s.items[id].status
  {
  }

  lemma SaveMoves(s: State, e: Event, id: ItemId)
    requires Enabled(s, e) && (id in s.items ==> ItemLeased(s, id)) && e.Save? && id in Step(s, e).items
    ensures Moves(s, e, Step(s, e), id)
  {
    if !Refuses(s, e.url, e.source) && e.source.Some? {
      var t := InsertBookmark(s, e.id, e.known, NewBookmark(e.url, e.title, e.notes, e.tags, SavedAt(e.source, e.now), e.now));
      AttachMoves(t, Step(s, e), if e.known.Some? then e.known.value else e.id, e.url, e.title, e.source.value, e.now, id);
    }
  }

  lemma EditMoves(s: State, e: Event, id: ItemId)
    requires OnEdit(e) && id in s.items && ItemLeased(s, id)
    ensures id in EditStep(s, e).items && Moves(s, e, EditStep(s, e), id)
  {
  }

  lemma CaptureMoves(s: State, e: Event, id: ItemId)
    requires Enabled(s, e) && OnCapture(e) && id in s.items && ItemLeased(s, id)
    ensures id in CaptureStep(s, e).items && Moves(s, e, CaptureStep(s, e), id)
  {
  }

  lemma EnrichMoves(s: State, e: Event, id: ItemId)
    requires Enabled(s, e) && OnEnrichment(e) && id in s.items && ItemLeased(s, id)
    ensures id in EnrichStep(s, e).items && Moves(s, e, EnrichStep(s, e), id)
  {
  }

  // The index worker writes nothing but its own two columns.
  ghost predicate Marked(s: State, t: State) {
    && t.ids == s.ids && t.workers == s.workers && t.sources == s.sources && t.reading == s.reading
    && t.items.Keys == s.items.Keys
    && forall id <- s.items ::
         t.items[id] == s.items[id].(indexed := t.items[id].indexed, indexError := t.items[id].indexError)
  }

  lemma MarkRow(s: State, id: ItemId, indexed: nat, failed: bool)
    requires id in s.items
    ensures Marked(s, Update(s, id, s.items[id].(indexed := indexed, indexError := failed)).(work := Idle))
  {
  }

  lemma IndexTouches(s: State, e: Event)
    requires Enabled(s, e) && OnIndex(e)
    ensures Marked(s, IndexStep(s, e))
  {
    if (e.IndexAcknowledge? || e.IndexFails?) && s.work.op.Put? && s.work.op.id in s.items {
      var id := s.work.op.id;
      if e.IndexFails? { MarkRow(s, id, s.items[id].indexed, true); } else { MarkRow(s, id, s.work.version, false); }
    } else {
      assert IndexStep(s, e).items == s.items;
    }
  }

  lemma SameKeys(s: State, e: Event)
    requires Enabled(s, e) && (OnIndex(e) || OnCapture(e) || OnEnrichment(e) || OnEdit(e))
    ensures Step(s, e).items.Keys == s.items.Keys && s.ids <= Step(s, e).ids
  {
    if OnIndex(e) {
      IndexTouches(s, e);
    } else if OnCapture(e) {
      CapturesSameFolders(s, e);
    } else if OnEnrichment(e) {
      EnrichSameFolders(s, e);
    } else {
      EditsSameFolders(s, e);
    }
  }

  lemma StepMoves(s: State, e: Event, id: ItemId)
    requires LeasesOk(s) && Enabled(s, e) && id in Step(s, e).items
    ensures Moves(s, e, Step(s, e), id)
  {
    if id in s.items { assert ItemLeased(s, id); }
    if OnIndex(e) || OnCapture(e) || OnEnrichment(e) || OnEdit(e) { SameKeys(s, e); }
    if OnIndex(e) {
      IndexTouches(s, e);
    } else if OnCapture(e) {
      CaptureMoves(s, e, id);
    } else if OnEnrichment(e) {
      EnrichMoves(s, e, id);
    } else if OnEdit(e) {
      EditMoves(s, e, id);
    } else if e.Save? {
      SaveMoves(s, e, id);
    }
  }

  lemma CaptureWorkers(s: State, e: Event)
    requires Enabled(s, e) && OnCapture(e)
    ensures var t := CaptureStep(s, e);
            && t.ids == s.ids
            && if e.ClaimCapture? then t.workers == s.workers + [Worker(e.id, e.token, s.items[e.id].attempts + 1)]
               else t.workers == s.workers
  {
  }

  lemma OtherWorkers(s: State, e: Event)
    requires Enabled(s, e) && (OnEnrichment(e) || OnEdit(e))
    ensures Step(s, e).ids == s.ids && Step(s, e).workers == s.workers
  {
    if OnEnrichment(e) {
      assert EnrichStep(s, e).workers == s.workers && EnrichStep(s, e).ids == s.ids;
    } else {
      assert EditStep(s, e).workers == s.workers && EditStep(s, e).ids == s.ids;
    }
  }

  lemma StepWorkers(s: State, e: Event)
    requires Enabled(s, e)
    ensures var t := Step(s, e);
            && s.ids <= t.ids
            && if e.ClaimCapture? then
                 t.workers == s.workers + [Worker(e.id, e.token, s.items[e.id].attempts + 1)] && t.ids == s.ids
               else t.workers == s.workers
  {
    if OnIndex(e) {
      IndexTouches(s, e);
    } else if OnCapture(e) {
      CaptureWorkers(s, e);
    } else if OnEnrichment(e) || OnEdit(e) {
      OtherWorkers(s, e);
    }
  }

  lemma ItemStaysLeased(s: State, e: Event, id: ItemId)
    requires LeasesOk(s) && Enabled(s, e) && id in Step(s, e).items
    ensures ItemLeased(Step(s, e), id)
  {
    var t := Step(s, e);
    StepMoves(s, e, id);
    StepWorkers(s, e);
    if id in s.items { assert ItemLeased(s, id); }
    if t.items[id].token.Some? {
      if id in s.items && t.items[id].token == s.items[id].token {
        var k :| 0 <= k < |s.workers| && s.workers[k].item == id && Some(s.workers[k].token) == s.items[id].token;
        assert t.workers[k] == s.workers[k];
      } else {
        assert t.workers[|s.workers|] == Worker(e.id, e.token, s.items[e.id].attempts + 1);
      }
    }
  }

  lemma StepKeepsLeases(s: State, e: Event)
    requires LeasesOk(s) && Enabled(s, e)
    ensures LeasesOk(Step(s, e))
  {
    var t := Step(s, e);
    StepWorkers(s, e);
    if e.ClaimCapture? { assert ItemLeased(s, e.id); }
    forall id <- t.items ensures ItemLeased(t, id) { ItemStaysLeased(s, e, id); }
  }

  // ------------------------------------------------------- stale workers

  // A worker without the current token changes nothing.
  lemma StaleWorker(s: State, k: nat, capture: string, page: Page, now: Time, works: bool)
    requires k < |s.workers| && !Holds(s, k)
    ensures Step(s, CaptureFails(k, now)) == s
    ensures Step(s, CaptureEnds(k, capture, page, now, works)) == s
  {
  }

  lemma StepStaysLost(s: State, e: Event, k: nat)
    requires LeasesOk(s) && Enabled(s, e) && k < |s.workers| && !Holds(s, k)
    ensures k < |Step(s, e).workers| && Step(s, e).workers[k] == s.workers[k] && !Holds(Step(s, e), k)
  {
    StepWorkers(s, e);
    var id := s.workers[k].item;
    if id in Step(s, e).items { StepMoves(s, e, id); }
  }

  // A lost capture lease never comes back, so that whatever happens in between
  // the worker's later result has no effect.
  lemma {:induction false} LostForGood(s: State, run: seq<Event>, k: nat, capture: string, page: Page, now: Time,
      works: bool)
    requires LeasesOk(s) && Feasible(s, run) && k < |s.workers| && !Holds(s, k)
    ensures var t := Exec(s, run);
            && k < |t.workers|
            && Step(t, CaptureFails(k, now)) == t
            && Step(t, CaptureEnds(k, capture, page, now, works)) == t
    decreases |run|
  {
    if run == [] {
      StaleWorker(s, k, capture, page, now, works);
    } else {
      StepKeepsLeases(s, run[0]);
      StepStaysLost(s, run[0], k);
      LostForGood(Step(s, run[0]), run[1..], k, capture, page, now, works);
    }
  }

  // A stored page ends every lease on its item, and a new claim every earlier one.
  lemma Supersedes(s: State, e: Event, k: nat)
    requires LeasesOk(s) && Enabled(s, e) && k < |s.workers|
    requires || (e.Import? && s.workers[k].item == e.id && Step(s, e) != s)
             || (e.CaptureEnds? && s.workers[k].item == s.workers[e.k].item && Step(s, e) != s)
             || (e.ClaimCapture? && s.workers[k].item == e.id)
    ensures k < |Step(s, e).workers| && !Holds(Step(s, e), k)
  {
    StepWorkers(s, e);
  }

  // At most one worker's result can still take effect on an item.
  lemma OneHolder(s: State, j: nat, k: nat)
    requires LeasesOk(s) && j < |s.workers| && k < |s.workers| && s.workers[j].item == s.workers[k].item
    requires Holds(s, j) && Holds(s, k)
    ensures j == k
  {
  }

  // A challenge page never replaces saved text or a title.
  lemma BlockedKeepsText(s: State, e: Event, id: ItemId)
    requires Enabled(s, e) && (e.CaptureEnds? || e.Import?) && e.page.found.Challenge? && id in s.items
    ensures id in Step(s, e).items && Step(s, e).items[id].title == s.items[id].title
    ensures s.items[id].text != "" ==> Step(s, e).items[id].text == s.items[id].text
  {
  }

  // --------------------------------------------------------- saved pages

  ghost predicate Kept(s: State, t: State, c: string)
    requires c in s.captures
  {
    s.captures[c].item !in t.items || (c in t.captures && t.captures[c] == s.captures[c])
  }

  lemma StepKeepsCapture(s: State, e: Event, c: string)
    requires Enabled(s, e) && c in s.captures
    ensures Kept(s, Step(s, e), c)
  {
    if OnCapture(e) {
      CaptureKeepsPages(s, e, c);
    } else if !e.Delete? {
      SamePages(s, e);
    }
  }

  lemma CaptureKeepsPages(s: State, e: Event, c: string)
    requires Enabled(s, e) && OnCapture(e) && c in s.captures
    ensures c in CaptureStep(s, e).captures && CaptureStep(s, e).captures[c] == s.captures[c]
  {
  }

  lemma SamePages(s: State, e: Event)
    requires Enabled(s, e) && !OnCapture(e) && !e.Delete?
    ensures Step(s, e).captures == s.captures
  {
    if OnIndex(e) {
      assert IndexStep(s, e).captures == s.captures;
    } else if e.Save? {
      SavedPages(s, e);
    }
  }

  lemma SavedPages(s: State, e: Event)
    requires Enabled(s, e) && e.Save?
    ensures Step(s, e).captures == s.captures
  {
  }

  lemma StepStaysGone(s: State, e: Event, id: ItemId)
    requires LeasesOk(s) && Enabled(s, e) && id in s.ids && id !in s.items
    ensures id in Step(s, e).ids && id !in Step(s, e).items
  {
    StepWorkers(s, e);
    if id in Step(s, e).items { StepMoves(s, e, id); }
  }

  lemma {:induction false} RunStaysGone(s: State, run: seq<Event>, id: ItemId)
    requires LeasesOk(s) && Feasible(s, run) && id in s.ids && id !in s.items
    ensures id !in Exec(s, run).items
    decreases |run|
  {
    if run != [] {
      StepKeepsLeases(s, run[0]);
      StepStaysGone(s, run[0], id);
      RunStaysGone(Step(s, run[0]), run[1..], id);
    }
  }

  // A stored page is never changed or dropped while its item exists, and
  // importing it once more then changes nothing.
  lemma {:induction false} PagesKept(s: State, run: seq<Event>, c: string, again: Event)
    requires LeasesOk(s) && Feasible(s, run) && c in s.captures && s.captures[c].item in s.items
    requires again.Import? && again.capture == c && again.id == s.captures[c].item
    ensures Kept(s, Exec(s, run), c) && Step(Exec(s, run), again) == Exec(s, run)
    decreases |run|
  {
    if run != [] {
      var t := Step(s, run[0]);
      StepKeepsLeases(s, run[0]);
      StepKeepsCapture(s, run[0], c);
      if s.captures[c].item in t.items {
        PagesKept(t, run[1..], c, again);
      } else {
        assert ItemLeased(s, s.captures[c].item);
        StepWorkers(s, run[0]);
        RunStaysGone(t, run[1..], s.captures[c].item);
      }
    }
  }

  lemma {:induction false} RunKeepsLeases(s: State, run: seq<Event>)
    requires LeasesOk(s) && Feasible(s, run)
    ensures LeasesOk(Exec(s, run))
    decreases |run|
  {
    if run != [] {
      StepKeepsLeases(s, run[0]);
      RunKeepsLeases(Step(s, run[0]), run[1..]);
    }
  }

  // In every reachable state an item is being captured exactly when it holds a token.
  lemma {:induction false} CapturingMeansLeased(run: seq<Event>, id: ItemId)
    requires Feasible(START, run) && id in Exec(START, run).items
    ensures Exec(START, run).items[id].status.Capturing? <==> Exec(START, run).items[id].token.Some?
  {
    RunKeepsLeases(START, run);
    assert ItemLeased(Exec(START, run), id);
  }

  // ---------------------------------------------------------- enrichment

  // The version read stands for the tags read.
  ghost predicate ReadingOk(s: State) {
    s.reading.Some? ==>
      var r := s.reading.value;
      r.item in s.ids && (r.item in s.items ==>
        r.version <= s.items[r.item].version && (r.version == s.items[r.item].version ==> r.tags == s.items[r.item].tags))
  }

  lemma RowsKeepReading(s: State, t: State)
    requires RowsEvolve(s, t) && ReadingOk(s) && (t.reading == s.reading || t.reading.None?)
    ensures ReadingOk(t)
  {
  }

  lemma ReadingMoves(s: State, e: Event)
    requires Enabled(s, e) && !OnIndex(e) && !e.EnrichRead?
    ensures Step(s, e).reading == s.reading || Step(s, e).reading.None?
  {
    if OnCapture(e) {
      assert CaptureStep(s, e).reading == s.reading;
    } else if e.Save? {
      SavedReading(s, e);
    }
  }

  lemma SavedReading(s: State, e: Event)
    requires Enabled(s, e) && e.Save?
    ensures Step(s, e).reading == s.reading
  {
  }

  lemma StepKeepsReading(s: State, e: Event)
    requires IndexOk(s) && Enabled(s, e) && ReadingOk(s)
    ensures ReadingOk(Step(s, e))
  {
    if e.EnrichRead? {
      assert ItemIndexed(s, e.id);
    } else if !OnIndex(e) {
      RowStepEvolves(s, e);
      ReadingMoves(s, e);
      RowsKeepReading(s, Step(s, e));
    } else {
      IndexTouches(s, e);
    }
  }

  lemma {:induction false} RunKeepsReading(s: State, run: seq<Event>)
    requires IndexOk(s) && ReadingOk(s) && Feasible(s, run)
    ensures IndexOk(Exec(s, run)) && ReadingOk(Exec(s, run))
    decreases |run|
  {
    if run != [] {
      StepKeepsIndex(s, run[0]);
      StepKeepsReading(s, run[0]);
      RunKeepsReading(Step(s, run[0]), run[1..]);
    }
  }

  // A classification that took any time never undoes an edit made meanwhile:
  // the tags there are now keep their place, and new ones follow.
  lemma {:induction false} EnrichmentKeepsTags(run: seq<Event>, e: Event, id: ItemId)
    requires Feasible(START, run) && Enabled(Exec(START, run), e) && e.EnrichWrite? && id in Exec(START, run).items
    ensures var s := Exec(START, run);
            var i, j := s.items[id], Step(s, e).items[id];
            && i.tags <= j.tags && (forall t <- j.tags :: t in i.tags || t in e.suggested)
            && j.title == i.title && j.notes == i.notes && j.text == i.text
  {
    RunKeepsReading(START, run);
    WriteKeepsTags(Exec(START, run), e, id);
  }

  lemma WriteKeepsTags(s: State, e: Event, id: ItemId)
    requires ReadingOk(s) && Enabled(s, e) && e.EnrichWrite? && id in s.items
    ensures var i, j := s.items[id], EnrichStep(s, e).items[id];
            && i.tags <= j.tags && (forall t <- j.tags :: t in i.tags || t in e.suggested)
            && j.title == i.title && j.notes == i.notes && j.text == i.text
  {
    TagsKept(s.reading.value.tags, e.suggested);
  }

  // ------------------------------------------------- what the owner wrote

  predicate OwnEdit(e: Event, id: ItemId) {
    e.Edit? && e.id == id
  }

  // Notes stay, tags are only added to, and a title the owner has edited stays.
  predicate OwnerKept(i: Item, j: Item) {
    && j.notes == i.notes && i.tags <= j.tags
    && (i.titleEdited ==> j.titleEdited && j.title == i.title)
  }

  lemma EditKeepsOwner(s: State, e: Event, id: ItemId)
    requires OnEdit(e) && !OwnEdit(e, id) && id in s.items
    ensures id in EditStep(s, e).items && OwnerKept(s.items[id], EditStep(s, e).items[id])
  {
    if e.Approve? || e.Reindex? {
      WideKeepsOwner(s, e, id);
    } else if e.id != id {
      assert EditStep(s, e).items == s.items || EditStep(s, e).items == s.items[e.id := EditStep(s, e).items[e.id]];
    }
  }

  lemma WideKeepsOwner(s: State, e: Event, id: ItemId)
    requires (e.Approve? || e.Reindex?) && id in s.items
    ensures id in EditStep(s, e).items && OwnerKept(s.items[id], EditStep(s, e).items[id])
  {
  }

  lemma CaptureKeepsOwner(s: State, e: Event, id: ItemId)
    requires Enabled(s, e) && OnCapture(e) && id in s.items
    ensures id in CaptureStep(s, e).items && OwnerKept(s.items[id], CaptureStep(s, e).items[id])
  {
  }

  lemma EnrichKeepsOwner(s: State, e: Event, id: ItemId)
    requires Enabled(s, e) && OnEnrichment(e) && ReadingOk(s) && id in s.items
    ensures id in EnrichStep(s, e).items && OwnerKept(s.items[id], EnrichStep(s, e).items[id])
  {
    if e.EnrichWrite? { TagsKept(s.reading.value.tags, e.suggested); }
  }

  // Outside of captures the count of attempts is kept, or starts again with a
  // new request.
  predicate CountKept(i: Item, j: Item) {
    || (j.status == i.status && j.token == i.token && j.attempts == i.attempts)
    || (j.status.Waiting? && j.token == i.token && j.attempts == 0 && !i.status.Capturing?)
  }

  lemma AttachKeeps(s: State, target: ItemId, url: string, title: string, o: Origin, now: Time, id: ItemId)
    requires id in s.items
    ensures var t := Attach(s, target, url, title, o, now);
            id in t.items && OwnerKept(s.items[id], t.items[id]) && CountKept(s.items[id], t.items[id])
  {
  }

  lemma SavedKeeps(s: State, at: ItemId, known: Option<ItemId>, url: string, title: string, notes: string,
      tags: seq<string>, source: Option<Origin>, now: Time, id: ItemId)
    requires id in s.items && id != at
    ensures var t := SaveItem(s, at, known, url, title, notes, tags, source, now);
            id in t.items && OwnerKept(s.items[id], t.items[id]) && CountKept(s.items[id], t.items[id])
  {
    if !Refuses(s, url, source) && source.Some? {
      var t := InsertBookmark(s, at, known, NewBookmark(url, title, notes, tags, SavedAt(source, now), now));
      AttachKeeps(t, if known.Some? then known.value else at, url, title, source.value, now, id);
    }
  }

  lemma SaveKeeps(s: State, e: Event, id: ItemId)
    requires Enabled(s, e) && e.Save? && id in s.items && id in s.ids
    ensures id in Step(s, e).items
    ensures OwnerKept(s.items[id], Step(s, e).items[id]) && CountKept(s.items[id], Step(s, e).items[id])
  {
    SavedKeeps(s, e.id, e.known, e.url, e.title, e.notes, e.tags, e.source, e.now, id);
  }

  lemma StepKeepsOwner(s: State, e: Event, id: ItemId)
    requires Enabled(s, e) && ReadingOk(s) && !OwnEdit(e, id) && id in s.items && id in s.ids
    ensures id in Step(s, e).items ==> OwnerKept(s.items[id], Step(s, e).items[id])
  {
    if OnIndex(e) {
      IndexTouches(s, e);
    } else if OnCapture(e) {
      CaptureKeepsOwner(s, e, id);
    } else if OnEnrichment(e) {
      EnrichKeepsOwner(s, e, id);
    } else if OnEdit(e) {
      EditKeepsOwner(s, e, id);
    } else if e.Save? {
      SaveKeeps(s, e, id);
    }
  }

  // No capture, classification, approval, import or bookmark in any run
  // undoes what the owner wrote: only an edit of the item itself does.
  lemma {:induction false} OwnerTextStays(s: State, run: seq<Event>, id: ItemId)
    requires IndexOk(s) && LeasesOk(s) && ReadingOk(s) && Feasible(s, run) && id in s.items
    requires forall k | 0 <= k < |run| :: !OwnEdit(run[k], id)
    ensures id in Exec(s, run).items ==> OwnerKept(s.items[id], Exec(s, run).items[id])
    decreases |run|
  {
    if run != [] {
      var t := Step(s, run[0]);
      assert ItemLeased(s, id);
      StepKeepsOwner(s, run[0], id);
      StepKeepsIndex(s, run[0]);
      StepKeepsLeases(s, run[0]);
      StepKeepsReading(s, run[0]);
      StepWorkers(s, run[0]);
      if id in t.items { OwnerTextStays(t, run[1..], id); } else { RunStaysGone(t, run[1..], id); }
    }
  }

  // ------------------------------------------------------- capture attempts

  // An item waiting for a capture has had fewer than three attempts, and the
  // holder of a lease knows the count.
  ghost predicate AttemptsOk(s: State) {
    && (forall id <- s.items :: s.items[id].status.Waiting? ==> s.items[id].attempts < CAPTURE_ATTEMPTS)
    && (forall k | 0 <= k < |s.workers| :: Holds(s, k) ==> s.workers[k].attempts == s.items[s.workers[k].item].attempts)
  }

  lemma EditKeepsCount(s: State, e: Event, id: ItemId)
    requires OnEdit(e) && id in s.items
    ensures id in EditStep(s, e).items && CountKept(s.items[id], EditStep(s, e).items[id])
  {
  }

  lemma EnrichKeepsCount(s: State, e: Event, id: ItemId)
    requires Enabled(s, e) && OnEnrichment(e) && id in s.items
    ensures id in EnrichStep(s, e).items && CountKept(s.items[id], EnrichStep(s, e).items[id])
  {
  }

  lemma NewUncounted(s: State, e: Event, id: ItemId)
    requires LeasesOk(s) && Enabled(s, e) && (e.Save? || e.ImportPdf? || e.Delete?)
    requires id in Step(s, e).items && id !in s.items
    ensures Step(s, e).items[id].token.None? && Step(s, e).items[id].attempts == 0
  {
    if e.Save? && e.source.Some? && !Refuses(s, e.url, e.source) {
      var t := InsertBookmark(s, e.id, e.known, NewBookmark(e.url, e.title, e.notes, e.tags, SavedAt(e.source, e.now), e.now));
      var target := if e.known.Some? then e.known.value else e.id;
      AttachMoves(t, Step(s, e), target, e.url, e.title, e.source.value, e.now, id);
      if e.known.None? { AttachKeeps(t, e.id, e.url, e.title, e.source.value, e.now, id); }
    }
  }

  lemma StepKeepsCount(s: State, e: Event, id: ItemId)
    requires LeasesOk(s) && Enabled(s, e) && !OnCapture(e) && id in Step(s, e).items
    ensures if id in s.items then CountKept(s.items[id], Step(s, e).items[id])
            else Step(s, e).items[id].token.None? && Step(s, e).items[id].attempts == 0
  {
    if id in s.items { assert ItemLeased(s, id); }
    if OnIndex(e) || OnEnrichment(e) || OnEdit(e) { SameKeys(s, e); }
    if OnIndex(e) {
      IndexTouches(s, e);
    } else if OnEnrichment(e) {
      EnrichKeepsCount(s, e, id);
    } else if OnEdit(e) {
      EditKeepsCount(s, e, id);
    } else if id !in s.items {
      NewUncounted(s, e, id);
    } else if e.Save? {
      SaveKeeps(s, e, id);
    }
  }

  lemma RestKeepsAttempts(s: State, e: Event)
    requires LeasesOk(s) && AttemptsOk(s) && Enabled(s, e) && !OnCapture(e)
    ensures AttemptsOk(Step(s, e))
  {
    var t := Step(s, e);
    StepWorkers(s, e);
    forall id <- t.items ensures t.items[id].status.Waiting? ==> t.items[id].attempts < CAPTURE_ATTEMPTS {
      StepKeepsCount(s, e, id);
    }
    forall k | 0 <= k < |t.workers| && Holds(t, k)
      ensures t.workers[k].attempts == t.items[t.workers[k].item].attempts
    {
      var id := t.workers[k].item;
      StepKeepsCount(s, e, id);
      if id in s.items { assert ItemLeased(s, id) && Holds(s, k); }
    }
  }

  lemma WaitingCounted(s: State, e: Event, id: ItemId)
    requires AttemptsOk(s) && Enabled(s, e) && OnCapture(e) && id in CaptureStep(s, e).items
    ensures CaptureStep(s, e).items[id].status.Waiting? ==> CaptureStep(s, e).items[id].attempts < CAPTURE_ATTEMPTS
  {
    if e.CaptureFails? && s.workers[e.k].item in s.items && Holds(s, e.k) {
      assert s.workers[e.k].attempts == s.items[s.workers[e.k].item].attempts;
    }
  }

  lemma CaptureKeepsAttempts(s: State, e: Event)
    requires LeasesOk(s) && AttemptsOk(s) && Enabled(s, e) && OnCapture(e)
    ensures AttemptsOk(CaptureStep(s, e))
  {
    var t := CaptureStep(s, e);
    CaptureWorkers(s, e);
    forall id <- t.items ensures t.items[id].status.Waiting? ==> t.items[id].attempts < CAPTURE_ATTEMPTS {
      WaitingCounted(s, e, id);
    }
    forall k | 0 <= k < |t.workers| && Holds(t, k)
      ensures t.workers[k].attempts == t.items[t.workers[k].item].attempts
    {
      if k < |s.workers| && !(e.ClaimCapture? && s.workers[k].item == e.id) {
        assert t.workers[k] == s.workers[k] && Holds(s, k);
      }
    }
  }

  // Whatever is tried, waits, fails or is requested again: an item waiting to
  // be captured has had fewer than three attempts since it was last requested.
  lemma {:induction false} AttemptsBounded(s: State, run: seq<Event>)
    requires LeasesOk(s) && AttemptsOk(s) && Feasible(s, run)
    ensures AttemptsOk(Exec(s, run))
    decreases |run|
  {
    if run != [] {
      if OnCapture(run[0]) { CaptureKeepsAttempts(s, run[0]); } else { RestKeepsAttempts(s, run[0]); }
      StepKeepsLeases(s, run[0]);
      AttemptsBounded(Step(s, run[0]), run[1..]);
    }
  }

  // ------------------------------------------------------------- folders

  // An item shows exactly the folders of the bookmarks filed under it.
  ghost predicate FoldersOk(s: State) {
    && (forall id <- s.items :: id in s.ids && s.items[id].folders == Folders(s.sources, id))
    && (forall k <- s.sources :: s.sources[k].item.Some? ==> s.sources[k].item.value in s.items)
  }

  ghost predicate SameFolders(s: State, t: State) {
    && t.sources == s.sources && t.items.Keys == s.items.Keys && s.ids <= t.ids
    && forall id <- s.items :: t.items[id].folders == s.items[id].folders
  }

  lemma CapturesSameFolders(s: State, e: Event)
    requires Enabled(s, e) && OnCapture(e)
    ensures SameFolders(s, CaptureStep(s, e))
  {
  }

  lemma EnrichSameFolders(s: State, e: Event)
    requires Enabled(s, e) && OnEnrichment(e)
    ensures SameFolders(s, EnrichStep(s, e))
  {
  }

  lemma EditsSameFolders(s: State, e: Event)
    requires OnEdit(e)
    ensures SameFolders(s, EditStep(s, e))
  {
  }

  lemma OtherStepsSameFolders(s: State, e: Event)
    requires Enabled(s, e) && (OnIndex(e) || OnCapture(e) || OnEnrichment(e) || OnEdit(e))
    ensures SameFolders(s, Step(s, e))
  {
    if OnIndex(e) {
      IndexTouches(s, e);
    } else if OnCapture(e) {
      CapturesSameFolders(s, e);
    } else if OnEnrichment(e) {
      EnrichSameFolders(s, e);
    } else {
      EditsSameFolders(s, e);
    }
  }

  lemma NewHasNoFolders(s: State, id: ItemId)
    requires FoldersOk(s) && id !in s.items
    ensures Folders(s.sources, id) == {}
  {
  }

  lemma SameFiled(a: map<(string, string), Source>, b: map<(string, string), Source>, id: ItemId)
    requires forall k <- a :: a[k].item == Some(id) ==> k in b && b[k] == a[k]
    requires forall k <- b :: b[k].item == Some(id) ==> k in a && a[k] == b[k]
    ensures Folders(a, id) == Folders(b, id)
  {
    assert forall f :: f in Folders(a, id) <==> f in Folders(b, id);
  }

  lemma AttachKeepsFolders(s: State, target: ItemId, url: string, title: string, o: Origin, now: Time)
    requires FoldersOk(s) && target in s.items
    ensures FoldersOk(Attach(s, target, url, title, o, now))
  {
    var t := Attach(s, target, url, title, o, now);
    var key := (o.client, o.node);
    forall id <- t.items
      ensures t.items[id].folders == Folders(t.sources, id)
    {
      if id != target && !(key in s.sources && s.sources[key].item == Some(id)) {
        SameFiled(s.sources, t.sources, id);
      }
    }
  }

  lemma DeleteKeepsFolders(s: State, id: ItemId)
    requires FoldersOk(s)
    ensures FoldersOk(DeleteItem(s, id))
  {
    var t := DeleteItem(s, id);
    forall other <- t.items
      ensures t.items[other].folders == Folders(t.sources, other)
    {
      SameFiled(s.sources, t.sources, other);
    }
  }

  lemma InsertKeepsFolders(s: State, id: ItemId, known: Option<ItemId>, i: Item)
    requires FoldersOk(s) && id !in s.items && Folders(s.sources, id) == {} && i.folders == {}
    ensures FoldersOk(InsertBookmark(s, id, known, i))
  {
  }

  lemma StepKeepsFolders(s: State, e: Event)
    requires FoldersOk(s) && Enabled(s, e)
    ensures FoldersOk(Step(s, e))
  {
    if e.Delete? {
      DeleteKeepsFolders(s, e.id);
    } else if e.ImportPdf? {
      NewHasNoFolders(s, e.id);
    } else if !e.Save? {
      OtherStepsSameFolders(s, e);
    } else if !Refuses(s, e.url, e.source) {
      NewHasNoFolders(s, e.id);
      var i := NewBookmark(e.url, e.title, e.notes, e.tags, SavedAt(e.source, e.now), e.now);
      InsertKeepsFolders(s, e.id, e.known, i);
      if e.source.Some? {
        var target := if e.known.Some? then e.known.value else e.id;
        AttachKeepsFolders(InsertBookmark(s, e.id, e.known, i), target, e.url, e.title, e.source.value, e.now);
      }
    }
  }

  lemma {:induction false} FoldersFollowBookmarks(s: State, run: seq<Event>)
    requires FoldersOk(s) && Feasible(s, run)
    ensures FoldersOk(Exec(s, run))
    decreases |run|
  {
    if run != [] {
      StepKeepsFolders(s, run[0]);
      FoldersFollowBookmarks(Step(s, run[0]), run[1..]);
    }
  }
}
