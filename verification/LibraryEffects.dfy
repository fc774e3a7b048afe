/** What each transaction on the library writes, field by field, and what a search then finds. */
module LibraryEffects {
  import opened Domain
  import opened Catalogue
  import opened LibraryProtocol
  import CaptureLeases

  // One row is changed, and no other.
  ghost predicate OnlyRow(s: State, t: State, id: ItemId) {
    id in s.items && id in t.items && t.items == s.items[id := t.items[id]]
  }

  // ------------------------------------------------------------- captures

  // A stored page gives the item its text and title, except that a challenge
  // page replaces no text that is there and no title, and that an edited title
  // stays; the lease is over and the item is to be classified and indexed again.
  predicate Stores(i: Item, j: Item, page: Page, now: Time) {
    && j.text == (if page.found == Challenge && i.text != "" then i.text else page.text)
    && j.title == (if i.titleEdited || page.title == "" || page.found == Challenge then i.title else page.title)
    && j.status == Got(page.found) && j.token == None && j.enrichment == Pending && j.version == i.version + 1
    && j == i.(text := j.text, title := j.title, status := j.status, token := None, until := 0,
               enrichment := Pending, version := j.version, updatedAt := now)
  }

  // The item a capture result is for, if it may be stored.
  ghost predicate Stored(s: State, e: Event)
    requires Enabled(s, e) && (e.CaptureEnds? || e.Import?)
  {
    && e.works && e.capture !in s.captures
    && if e.Import? then e.id in s.items else CaptureLeases.Holds(s, e.k)
  }

  function Target(s: State, e: Event): ItemId
    requires Enabled(s, e) && (e.CaptureEnds? || e.Import?)
  {
    if e.Import? then e.id else s.workers[e.k].item
  }

  lemma PageIsStored(s: State, e: Event)
    requires Enabled(s, e) && (e.CaptureEnds? || e.Import?)
    ensures !Stored(s, e) ==> Step(s, e) == s
    ensures Stored(s, e) ==>
              var t, id := Step(s, e), Target(s, e);
              && OnlyRow(s, t, id) && Stores(s.items[id], t.items[id], e.page, e.now)
              && t.captures == s.captures[e.capture := Capture(id, e.page, e.Import? && e.browser)]
  {
  }

  // Without a page the item waits half a minute for its next attempt, three
  // attempts in all.
  lemma CaptureMissed(s: State, e: Event)
    requires Enabled(s, e) && e.CaptureFails? && CaptureLeases.Holds(s, e.k)
    ensures var w := s.workers[e.k];
            var i, j := s.items[w.item], Step(s, e).items[w.item];
            && OnlyRow(s, Step(s, e), w.item)
            && j == i.(status := if w.attempts < 3 then Waiting else NoPage, next := e.now + 30_000_000,
                       token := None, until := 0, version := i.version + 1)
  {
  }

  // A claim leases the item for six minutes and counts the attempt.
  lemma CaptureBegins(s: State, e: Event)
    requires Enabled(s, e) && e.ClaimCapture?
    ensures var i, j := s.items[e.id], Step(s, e).items[e.id];
            && OnlyRow(s, Step(s, e), e.id)
            && j == i.(status := Capturing, token := Some(e.token), until := e.now + 360_000_000, attempts := i.attempts + 1)
            && Step(s, e).workers == s.workers + [Worker(e.id, e.token, i.attempts + 1)]
    ensures CaptureLeases.Holds(Step(s, e), |s.workers|)
  {
  }

  // ------------------------------------------------------- owner's changes

  lemma EditIsKept(s: State, e: Event)
    requires Enabled(s, e) && e.Edit? && e.id in s.items
    ensures var i, j := s.items[e.id], Step(s, e).items[e.id];
            && OnlyRow(s, Step(s, e), e.id)
            && j == i.(title := e.title, notes := e.notes, tags := e.tags, titleEdited := true, updatedAt := e.now,
                       version := i.version + 1)
  {
  }

  // A bookmark that is not being captured right now can be captured again.
  lemma RecaptureIsDue(s: State, e: Event)
    requires Enabled(s, e) && e.Recapture? && e.id in s.items
    ensures var i := s.items[e.id];
            if i.kind == Bookmark && i.status != Capturing then
              && OnlyRow(s, Step(s, e), e.id) && CanCapture(Step(s, e).items[e.id], e.now)
              && Step(s, e).items[e.id]
                 == i.(status := Waiting, attempts := 0, next := e.now, version := i.version + 1)
            else Step(s, e) == s
  {
  }

  lemma SelectionIsKept(s: State, e: Event)
    requires Enabled(s, e) && e.SelectJob? && e.id in s.items
    ensures var i, j := s.items[e.id], Step(s, e).items[e.id];
            OnlyRow(s, Step(s, e), e.id) && j == i.(job := e.selected, updatedAt := e.now, version := i.version + 1)
  {
  }

  // An approved reading supplies the text and the title that are missing.
  lemma ApprovalSuppliesText(s: State, e: Event, id: ItemId)
    requires Enabled(s, e) && e.Approve? && id in s.items
    ensures var i, j := s.items[id], Step(s, e).items[id];
            if i.job == Some(e.job) then
              j == i.(text := if i.text == "" then e.text else i.text, title := if i.titleEdited then i.title else e.title,
                      version := i.version + 1)
            else j == i
  {
  }

  // Reindexing puts every item behind, with the version it has.
  lemma ReindexTakesAll(s: State, e: Event, id: ItemId)
    requires Enabled(s, e) && e.Reindex? && id in s.items && s.items[id].version > 0
    ensures var j := Step(s, e).items[id];
            j == s.items[id].(indexed := 0, indexError := false) && j.indexed < j.version
  {
  }

  predicate AsGiven(i: Item, e: Event)
    requires e.Save?
  {
    && i.kind == Bookmark && i.url == e.url && i.title == e.title && !i.titleEdited
    && i.notes == e.notes && i.tags == e.tags && i.text == "" && i.enrichment == Pending
    && i.status == Waiting && i.next <= e.now && i.attempts == 0 && i.version > i.indexed == 0
    && i.savedAt == (if e.source.Some? && e.source.value.savedAt.Some? then e.source.value.savedAt.value else e.now)
  }

  // A new page is saved as it was given, due to be captured; saved by its
  // owner, it is no longer kept away from the browsers.
  lemma NewPageIsSaved(s: State, e: Event)
    requires Enabled(s, e) && e.Save? && e.known.None? && (e.source.None? || e.url !in s.tombstones)
    ensures var t := Step(s, e);
            && e.id in t.items && t.items.Keys == s.items.Keys + {e.id} && AsGiven(t.items[e.id], e)
            && (if e.source.None? then e.url !in t.tombstones else FiledUnder(t, e, e.id))
  {
    var i := NewBookmark(e.url, e.title, e.notes, e.tags, SavedAt(e.source, e.now), e.now);
    var t := InsertBookmark(s, e.id, None, i);
    if e.source.Some? { AttachedAt(t, e, e.id); }
  }

  // A bookmark filed under an item that is there.
  lemma AttachedAt(s: State, e: Event, id: ItemId)
    requires e.Save? && e.source.Some? && id in s.items
    ensures var t := Attach(s, id, e.url, e.title, e.source.value, e.now);
            && t.items.Keys == s.items.Keys && FiledUnder(t, e, id) && t.ids == s.ids
            && t.items[id] == s.items[id].(
                 title := if s.items[id].titleEdited || e.title == "" then s.items[id].title else e.title,
                 sourceTitle := e.title, folders := t.items[id].folders, updatedAt := e.now,
                 version := s.items[id].version + 1)
  {
  }

  ghost predicate FiledUnder(t: State, e: Event, id: ItemId)
    requires e.Save? && e.source.Some?
  {
    var key := (e.source.value.client, e.source.value.node);
    key in t.sources && t.sources[key] == Source(Some(id), e.url, e.title, e.source.value.folder)
  }

  lemma KnownPageIsFiled(s: State, e: Event)
    requires Enabled(s, e) && e.Save? && e.known.Some? && e.source.Some? && e.url !in s.tombstones
    ensures var t := Step(s, e);
            && t.items.Keys == s.items.Keys && FiledUnder(t, e, e.known.value)
            && var i, j := s.items[e.known.value], t.items[e.known.value];
               j == i.(title := if i.titleEdited || e.title == "" then i.title else e.title, sourceTitle := e.title,
                       folders := j.folders, updatedAt := e.now, version := i.version + 1)
  {
    AttachedAt(s.(ids := s.ids + {e.id}), e, e.known.value);
  }

  // A page that is there keeps what its owner wrote; a bookmark is filed under
  // it and refreshes its title.
  lemma KnownPageIsKept(s: State, e: Event)
    requires Enabled(s, e) && e.Save? && e.known.Some? && (e.source.None? || e.url !in s.tombstones)
    ensures var t := Step(s, e);
            var i, j := s.items[e.known.value], t.items[e.known.value];
            && t.items.Keys == s.items.Keys
            && if e.source.None? then t.items == s.items
               else && FiledUnder(t, e, e.known.value)
                    && j == i.(title := if i.titleEdited || e.title == "" then i.title else e.title, sourceTitle := e.title,
                               folders := j.folders, updatedAt := e.now, version := i.version + 1)
  {
    if e.source.Some? { KnownPageIsFiled(s, e); }
  }

  // The folders of an item are those of the bookmarks filed under it.
  lemma FoldersAre(sources: map<(string, string), Source>, id: ItemId, folder: string)
    ensures folder in Folders(sources, id) <==>
              folder != "" && exists k :: k in sources && sources[k].item == Some(id) && sources[k].folder == folder
  {
  }

  lemma PdfIsSaved(s: State, e: Event)
    requires Enabled(s, e) && e.ImportPdf?
    ensures var t := Step(s, e);
            && e.id in t.items && t.items.Keys == s.items.Keys + {e.id}
            && var i := t.items[e.id];
               (i.kind == Pdf && i.title == e.title && i.text == e.text && i.job == Some(e.job) && i.enrichment == Pending
                && i.version > i.indexed == 0)
  {
  }

  // A browser does not bring back what its owner removed.
  lemma RemovedStaysRemoved(s: State, e: Event)
    requires Enabled(s, e) && e.Save? && e.source.Some? && e.url in s.tombstones
    ensures Step(s, e) == s
  {
  }

  lemma DeletionIsWhole(s: State, e: Event)
    requires Enabled(s, e) && e.Delete? && e.id in s.items
    ensures var t := Step(s, e);
            && t.items == s.items - {e.id} && t.deletions == s.deletions + {e.id}
            && (forall c :: c in t.captures <==> c in s.captures && s.captures[c].item != e.id)
            && (forall c <- t.captures :: t.captures[c] == s.captures[c])
            && t.sources.Keys == s.sources.Keys && (forall k <- t.sources :: t.sources[k].item != Some(e.id))
            && (s.items[e.id].url != "" ==> s.items[e.id].url in t.tombstones)
  {
  }

  // A classification of the version that was read is written with its tags
  // added; one of an older version is dropped.
  lemma ClassificationIsWritten(s: State, e: Event)
    requires CaptureLeases.ReadingOk(s) && Enabled(s, e) && e.EnrichWrite?
    ensures var r := s.reading.value;
            if r.item in s.items && s.items[r.item].version == r.version then
              var i, j := s.items[r.item], Step(s, e).items[r.item];
              && OnlyRow(s, Step(s, e), r.item) && j.version == i.version + 1
              && if e.ok then
                   && j.enrichment == Enriched && j.classification == e.classification && j.suggested == e.suggested
                   && (forall tag :: tag in j.tags <==> tag in i.tags || tag in e.suggested)
                 else j == i.(enrichment := Unenriched, version := j.version)
            else Step(s, e).items == s.items
  {
    if e.ok { TagsKept(s.reading.value.tags, e.suggested); }
  }

  // An item with a new text is classified, unless another is just then.
  lemma TextIsClassified(s: State, id: ItemId, classification: string, suggested: seq<string>)
    requires id in s.items && s.items[id].enrichment == Pending && s.items[id].text != "" && s.reading == None
    ensures Enabled(s, EnrichRead(id))
    ensures var t := Step(Step(s, EnrichRead(id)), EnrichWrite(true, classification, suggested));
            && id in t.items && t.items[id].classification == classification && t.items[id].enrichment == Enriched
            && (forall tag :: tag in t.items[id].tags <==> tag in s.items[id].tags || tag in suggested)
  {
    TagsKept(s.items[id].tags, suggested);
  }

  // ----------------------------------------------------------- the search

  // The document holds every field of the item that can be searched or shown.
  predicate Shows(d: Document, id: ItemId, i: Item) {
    && d.id == id && d.kind == i.kind && d.url == i.url && d.title == i.title && d.notes == i.notes
    && d.tags == i.tags && d.folders == i.folders && d.text == i.text && d.classification == i.classification
    && d.savedAt == i.savedAt && d.status == i.status
  }

  // With nothing to remove and nobody stepping in, a pass brings an item that
  // is behind into the index.
  lemma PassShowsItem(s: State, id: ItemId)
    requires IndexOk(s) && s.tasks == [] && s.work.Idle? && s.deletions == {}
    requires id in s.items && s.items[id].indexed < s.items[id].version
    ensures Feasible(s, OnePass(id))
    ensures var t := Exec(s, OnePass(id));
            && id in t.index && Shows(t.index[id], id, s.items[id])
            && id in t.items && t.items[id].indexed == t.items[id].version == s.items[id].version
  {
    PassCatchesUp(s, id);
  }

  // A stored page can be searched after the next pass.
  lemma CapturedIsFound(s: State, e: Event)
    requires IndexOk(s) && s.tasks == [] && s.work.Idle? && s.deletions == {}
    requires Enabled(s, e) && (e.CaptureEnds? || e.Import?) && Stored(s, e)
    ensures var t, id := Step(s, e), Target(s, e);
            && Feasible(t, OnePass(id)) && id in Exec(t, OnePass(id)).index
            && var d := Exec(t, OnePass(id)).index[id];
               && d.text == (if e.page.found == Challenge && s.items[id].text != "" then s.items[id].text else e.page.text)
               && d.status == Got(e.page.found)
  {
    var t, id := Step(s, e), Target(s, e);
    PageIsStored(s, e);
    StepKeepsIndex(s, e);
    assert ItemIndexed(s, id);
    PassShowsItem(t, id);
  }

  // So can what its owner wrote.
  lemma EditIsFound(s: State, e: Event)
    requires IndexOk(s) && s.tasks == [] && s.work.Idle? && s.deletions == {}
    requires Enabled(s, e) && e.Edit? && e.id in s.items
    ensures var t := Step(s, e);
            && Feasible(t, OnePass(e.id)) && e.id in Exec(t, OnePass(e.id)).index
            && var d := Exec(t, OnePass(e.id)).index[e.id];
               d.title == e.title && d.notes == e.notes && d.tags == e.tags
  {
    EditIsKept(s, e);
    StepKeepsIndex(s, e);
    assert ItemIndexed(s, e.id);
    PassShowsItem(Step(s, e), e.id);
  }

  // The item is found by the text of the page, under its url.
  ghost predicate Found(t: State, id: ItemId, url: string, title: string, page: Page) {
    && Feasible(t, OnePass(id)) && id in Exec(t, OnePass(id)).index
    && Exec(t, OnePass(id)).index[id].text == page.text && Exec(t, OnePass(id)).index[id].url == url
    && Exec(t, OnePass(id)).index[id].title == (if page.title == "" || page.found == Challenge then title else page.title)
  }

  lemma FirstPageIsFound(s: State, id: ItemId, token: Token, now: Time, capture: string, page: Page, end: Time)
    requires IndexOk(s) && s.tasks == [] && s.work.Idle? && s.deletions == {} && Enabled(s, ClaimCapture(id, token, now))
    requires s.items[id].text == "" && !s.items[id].titleEdited && capture !in s.captures
    ensures var claimed := Step(s, ClaimCapture(id, token, now));
            var ends := CaptureEnds(|s.workers|, capture, page, end, true);
            Enabled(claimed, ends) && Found(Step(claimed, ends), id, s.items[id].url, s.items[id].title, page)
  {
    var claim := ClaimCapture(id, token, now);
    CaptureBegins(s, claim);
    StepKeepsIndex(s, claim);
    var claimed := Step(s, claim);
    var ends := CaptureEnds(|s.workers|, capture, page, end, true);
    PageIsStored(claimed, ends);
    StepKeepsIndex(claimed, ends);
    assert ItemIndexed(claimed, id);
    PassShowsItem(Step(claimed, ends), id);
  }

  // From the bookmark to the search: a page saved by its owner, captured without
  // interference and indexed is found by the text of the page.
  lemma SavedPageIsFound(s: State, save: Event, token: Token, capture: string, page: Page, end: Time)
    requires IndexOk(s) && s.tasks == [] && s.work.Idle? && s.deletions == {}
    requires Enabled(s, save) && save.Save? && save.known.None? && save.source.None?
    requires (forall w <- s.workers :: w.token != token) && capture !in s.captures
    ensures var saved, claim := Step(s, save), ClaimCapture(save.id, token, save.now);
            Enabled(saved, claim) && Enabled(Step(saved, claim), CaptureEnds(|s.workers|, capture, page, end, true))
    ensures var claimed := Step(Step(s, save), ClaimCapture(save.id, token, save.now));
            Found(Step(claimed, CaptureEnds(|s.workers|, capture, page, end, true)), save.id, save.url, save.title, page)
  {
    NewPageIsSaved(s, save);
    StepKeepsIndex(s, save);
    FirstPageIsFound(Step(s, save), save.id, token, save.now, capture, page, end);
  }
}
