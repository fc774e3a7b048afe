/** Saved items with their captures, and the search index behind them. */
module Catalogue {
  import opened Domain

  type ItemId = string
  type Token = string
  type Time = int

  datatype Kind = Bookmark | Pdf
  datatype Found = Whole | Incomplete | Challenge    // "complete", "partial", "blocked"
  datatype CaptureStatus = Waiting | Capturing | NoPage | NotCaptured | NotApplicable | Got(found: Found)
  datatype Enrichment = Pending | Enriched | Unenriched
  datatype Source = Source(item: Option<ItemId>, url: string, title: string, folder: string)
  datatype Capture = Capture(item: ItemId, page: Page, browser: bool)
  datatype Page = Page(found: Found, title: string, text: string)

  const CAPTURE_LEASE := 360_000_000
  const CAPTURE_PAUSE := 30_000_000
  const CAPTURE_ATTEMPTS := 3

  // A row of saved_items; an empty url stands for NULL. Folders are a set, as
  // the column holds the distinct ones in sorted order.
  datatype Item = Item(
    kind: Kind, url: string,
    title: string, titleEdited: bool, sourceTitle: string, notes: string, tags: seq<string>, folders: set<string>,
    text: string, classification: string, suggested: seq<string>, enrichment: Enrichment,
    savedAt: Time, updatedAt: Time, job: Option<string>,
    status: CaptureStatus, token: Option<Token>, until: Time, attempts: nat, next: Time,
    version: nat, indexed: nat, indexError: bool)

  function HasUrl(items: map<ItemId, Item>, url: string): set<ItemId> {
    set id | id in items && items[id].url == url
  }

  // What the index holds of an item. The host follows from the url, and the
  // indexed text is the one rendering of text, classification and folders.
  datatype Document = Document(id: ItemId, kind: Kind, url: string, title: string, notes: string, tags: seq<string>,
    folders: set<string>, text: string, classification: string, savedAt: Time, status: CaptureStatus)

  function Project(id: ItemId, i: Item): Document {
    Document(id, i.kind, i.url, i.title, i.notes, i.tags, i.folders, i.text, i.classification, i.savedAt, i.status)
  }

  // Equal in every field except the capture status.
  predicate Same(a: Document, b: Document) {
    a.(status := b.status) == b
  }

  function NewBookmark(url: string, title: string, notes: string, tags: seq<string>, savedAt: Time, now: Time): Item {
    Item(Bookmark, url, title, false, title, notes, tags, {}, "", "", [], Pending, savedAt, now, None,
         Waiting, None, 0, 0, now, 1, 0, false)
  }

  function NewPdf(title: string, job: string, text: string, now: Time): Item {
    Item(Pdf, "", title, false, "", "", [], {}, text, "", [], Pending, now, now, Some(job),
         NotApplicable, None, 0, 0, now, 1, 0, false)
  }

  function Bump(i: Item): Item {
    i.(version := i.version + 1)
  }

  function Edited(i: Item, title: string, notes: string, tags: seq<string>, now: Time): Item {
    Bump(i).(title := title, notes := notes, tags := tags, titleEdited := true, updatedAt := now)
  }

  function Requeued(i: Item, now: Time): Item {
    Bump(i).(status := Waiting, attempts := 0, next := now)
  }

  function Selected(i: Item, job: Option<string>, now: Time): Item {
    Bump(i).(job := job, updatedAt := now)
  }

  // Approved reading content supplies text the item does not have yet.
  function Approved(i: Item, title: string, text: string): Item {
    Bump(i).(text := if i.text == "" then text else i.text, title := if i.titleEdited then i.title else title)
  }

  function Sourced(i: Item, title: string, folders: set<string>, now: Time): Item {
    Bump(i).(sourceTitle := title, title := if i.titleEdited || title == "" then i.title else title,
             folders := folders, updatedAt := now)
  }

  function Refoldered(i: Item, folders: set<string>, now: Time): Item {
    Bump(i).(folders := folders, updatedAt := now)
  }

  predicate CanCapture(i: Item, now: Time) {
    (i.status.Waiting? && i.next <= now) || (i.status.Capturing? && i.until < now)
  }

  function Leased(i: Item, token: Token, now: Time): Item {
    i.(status := Capturing, token := Some(token), until := now + CAPTURE_LEASE, attempts := i.attempts + 1)
  }

  function Uncaptured(i: Item, attempts: nat, now: Time): Item {
    Bump(i).(status := if attempts < CAPTURE_ATTEMPTS then Waiting else NoPage,
             next := now + CAPTURE_PAUSE, token := None, until := 0)
  }

  function Captured(i: Item, page: Page, now: Time): Item {
    Bump(i).(status := Got(page.found), token := None, until := 0,
             title := if i.titleEdited || page.title == "" || page.found.Challenge? then i.title else page.title,
             text := if page.found.Challenge? && i.text != "" then i.text else page.text,
             enrichment := Pending, updatedAt := now)
  }

  function ApplyTags(existing: seq<string>, suggested: seq<string>): seq<string>
    decreases |suggested|
  {
    if suggested == [] then existing
    else
      var rest := ApplyTags(existing, suggested[..|suggested| - 1]);
      var last := suggested[|suggested| - 1];
      if last in rest then rest else rest + [last]
  }

  // A tag the owner has chosen is never dropped or moved, and none is added twice.
  lemma {:induction false} TagsKept(existing: seq<string>, suggested: seq<string>)
    ensures var tags := ApplyTags(existing, suggested);
            && existing <= tags
            && (forall t :: t in tags <==> t in existing || t in suggested)
            && (forall i, j | |existing| <= i < |tags| && 0 <= j < i :: tags[i] != tags[j])
    decreases |suggested|
  {
    if suggested != [] {
      TagsKept(existing, suggested[..|suggested| - 1]);
      assert suggested == suggested[..|suggested| - 1] + [suggested[|suggested| - 1]];
    }
  }

  method MergeTags(existing: seq<string>, suggested: seq<string>) returns (tags: seq<string>)
    ensures tags == ApplyTags(existing, suggested)
  {
    tags := existing;
    var seen := set t | t in existing;
    for i := 0 to |suggested|
      invariant tags == ApplyTags(existing, suggested[..i])
      invariant forall t :: t in seen <==> t in tags
    {
      assert suggested[..i + 1][..i] == suggested[..i];
      if suggested[i] !in seen {
        tags := tags + [suggested[i]];
        seen := seen + {suggested[i]};
      }
    }
    assert suggested[..|suggested|] == suggested;
  }

  function Classified(i: Item, ok: bool, classification: string, suggested: seq<string>, tags: seq<string>): Item {
    if ok then Bump(i).(tags := tags, classification := classification, suggested := suggested, enrichment := Enriched)
    else Bump(i).(enrichment := Unenriched)
  }

  predicate WantsEnrichment(i: Item) {
    i.enrichment.Pending? && (i.text != "" || i.status.NoPage? || i.status == Got(Challenge) || i.status.NotApplicable?)
  }
}

/** Every transaction on the library as a step of one state machine. */
module LibraryProtocol {
  import opened Domain
  import opened Catalogue

  datatype Op = Put(id: ItemId, doc: Document) | Remove(id: ItemId)

  // The index worker under the advisory lock: it has read what to do, has
  // queued it with the search engine, or has been told that it was carried out.
  datatype Work = Idle | Fetched(op: Op, version: nat) | Sent(op: Op, version: nat) | Finished(op: Op, version: nat)

  datatype Worker = Worker(item: ItemId, token: Token, attempts: nat)
  datatype Reading = Reading(item: ItemId, version: nat, tags: seq<string>)

  datatype State = State(
    items: map<ItemId, Item>,
    captures: map<string, Capture>,
    sources: map<(string, string), Source>,
    tombstones: set<string>,
    deletions: set<ItemId>,             // search_deletions
    index: map<ItemId, Document>,
    tasks: seq<Op>,                     // tasks of the search engine, in order
    work: Work,
    reading: Option<Reading>,           // the enrichment under way
    workers: seq<Worker>,               // every capture lease ever given
    ids: set<ItemId>)                   // every item identifier ever drawn

  datatype Event =
    | Save(id: ItemId, known: Option<ItemId>, url: string, title: string, notes: string, tags: seq<string>, source: Option<Origin>, now: Time)
    | ImportPdf(id: ItemId, title: string, job: string, text: string, now: Time)
    | Edit(id: ItemId, title: string, notes: string, tags: seq<string>, now: Time)
    | Recapture(id: ItemId, now: Time)
    | SelectJob(id: ItemId, selected: Option<string>, now: Time)
    | Approve(job: string, title: string, text: string)
    | RetryEnrichment(id: ItemId)
    | Reindex
    | Delete(id: ItemId)
    | ClaimCapture(id: ItemId, token: Token, now: Time)
    | CaptureFails(k: nat, now: Time)
    | CaptureEnds(k: nat, capture: string, page: Page, now: Time, works: bool)
    | Import(id: ItemId, capture: string, page: Page, browser: bool, now: Time, works: bool)
    | EnrichRead(id: ItemId)
    | EnrichWrite(ok: bool, classification: string, suggested: seq<string>)
    | EnrichStop
    | IndexRead(id: ItemId)
    | IndexSend
    | IndexServe(works: bool)           // the search engine takes its next task
    | IndexAcknowledge
    | IndexFails
    | IndexStop

  datatype Origin = Origin(client: string, node: string, folder: string, savedAt: Option<Time>)

  predicate Enabled(s: State, e: Event) {
    if e.Save? then
      e.id !in s.ids && e.url != "" && if e.known.Some? then e.known.value in HasUrl(s.items, e.url) else HasUrl(s.items, e.url) == {}
    else if e.ImportPdf? then e.id !in s.ids
    else if e.ClaimCapture? then e.id in s.items && CanCapture(s.items[e.id], e.now) && forall w <- s.workers :: w.token != e.token
    else if e.CaptureFails? || e.CaptureEnds? then e.k < |s.workers|
    else if e.EnrichRead? then s.reading.None? && e.id in s.items && WantsEnrichment(s.items[e.id])
    else if e.EnrichWrite? || e.EnrichStop? then s.reading.Some?
    else if e.IndexRead? then
      s.work.Idle? && if s.deletions != {} then e.id in s.deletions
                      else e.id in s.items && s.items[e.id].indexed < s.items[e.id].version
    else if e.IndexSend? then s.work.Fetched?
    else if e.IndexServe? then s.tasks != []
    else if e.IndexAcknowledge? then s.work.Finished?
    else if e.IndexFails? || e.IndexStop? then !s.work.Idle?
    else true
  }

  function Folders(sources: map<(string, string), Source>, id: ItemId): set<string> {
    set k | k in sources && sources[k].item == Some(id) && sources[k].folder != "" :: sources[k].folder
  }

  // ----------------------------------------------------- the transactions

  // A browser may not bring back what was removed; a person may.
  predicate Refuses(s: State, url: string, source: Option<Origin>) {
    source.Some? && url in s.tombstones
  }

  function InsertBookmark(s: State, id: ItemId, known: Option<ItemId>, i: Item): State {
    s.(items := if known.None? then s.items[id := i] else s.items, ids := s.ids + {id})
  }

  function SavedAt(source: Option<Origin>, now: Time): Time {
    if source.Some? && source.value.savedAt.Some? then source.value.savedAt.value else now
  }

  // Saves under the item known to have the url, or else as a new item.
  function SaveItem(s: State, id: ItemId, known: Option<ItemId>, url: string, title: string, notes: string,
      tags: seq<string>, source: Option<Origin>, now: Time): State
  {
    if Refuses(s, url, source) then s
    else
      var t := InsertBookmark(s, id, known, NewBookmark(url, title, notes, tags, SavedAt(source, now), now));
      if source.None? then t.(tombstones := s.tombstones - {url})
      else Attach(t, if known.Some? then known.value else id, url, title, source.value, now)
  }

  // Files the bookmark node under the target and refreshes the folders of the
  // item it was filed under before.
  function Attach(s: State, target: ItemId, url: string, title: string, o: Origin, now: Time): State
  {
    var key := (o.client, o.node);
    var prior := if key in s.sources then s.sources[key].item else None;
    var sources := s.sources[key := Source(Some(target), url, title, o.folder)];
    var items := if prior.Some? && prior != Some(target) && prior.value in s.items
      then s.items[prior.value := Refoldered(s.items[prior.value], Folders(sources, prior.value), now)] else s.items;
    s.(sources := sources,
       items := if target in items then items[target := Sourced(items[target], title, Folders(sources, target), now)] else items)
  }

  function Update(s: State, id: ItemId, i: Item): State {
    s.(items := s.items[id := i])
  }

  function DeleteItem(s: State, id: ItemId): State {
    if id !in s.items then s
    else
      var url := s.items[id].url;
      s.(items := s.items - {id},
         captures := map c | c in s.captures && s.captures[c].item != id :: s.captures[c],
         sources := map k | k in s.sources ::
           if s.sources[k].item == Some(id) then s.sources[k].(item := None) else s.sources[k],
         tombstones := if url != "" then s.tombstones + {url} else s.tombstones,
         deletions := s.deletions + {id})
  }

  // A page for the item, from the holder of a lease or (without one) from the
  // browser or a recovery session. `works` covers the stored file and the commit.
  function Persist(s: State, id: ItemId, lease: Option<Token>, capture: string, page: Page, browser: bool, now: Time,
    works: bool): State
  {
    if id !in s.items || (lease.Some? && s.items[id].token != lease) || capture in s.captures || !works then s
    else Update(s, id, Captured(s.items[id], page, now)).(captures := s.captures[capture := Capture(id, page, browser)])
  }

  predicate OnIndex(e: Event) {
    e.IndexRead? || e.IndexSend? || e.IndexServe? || e.IndexAcknowledge? || e.IndexFails? || e.IndexStop?
  }

  predicate OnCapture(e: Event) {
    e.ClaimCapture? || e.CaptureFails? || e.CaptureEnds? || e.Import?
  }

  predicate OnEnrichment(e: Event) {
    e.EnrichRead? || e.EnrichWrite? || e.EnrichStop?
  }

  predicate OnEdit(e: Event) {
    e.Edit? || e.Recapture? || e.SelectJob? || e.RetryEnrichment? || e.Approve? || e.Reindex?
  }

  function Step(s: State, e: Event): State
    requires Enabled(s, e)
  {
    if OnIndex(e) then IndexStep(s, e)
    else if OnCapture(e) then CaptureStep(s, e)
    else if OnEnrichment(e) then EnrichStep(s, e)
    else if OnEdit(e) then EditStep(s, e)
    else if e.Delete? then DeleteItem(s, e.id)
    else if e.Save? then SaveItem(s, e.id, e.known, e.url, e.title, e.notes, e.tags, e.source, e.now)
    else s.(items := s.items[e.id := NewPdf(e.title, e.job, e.text, e.now)], ids := s.ids + {e.id})
  }

  function EditStep(s: State, e: Event): State
    requires OnEdit(e)
  {
    if e.Edit? then
      if e.id in s.items then Update(s, e.id, Edited(s.items[e.id], e.title, e.notes, e.tags, e.now)) else s
    else if e.Recapture? then
      if e.id in s.items && s.items[e.id].kind.Bookmark? && !s.items[e.id].status.Capturing?
      then Update(s, e.id, Requeued(s.items[e.id], e.now)) else s
    else if e.SelectJob? then
      if e.id in s.items then Update(s, e.id, Selected(s.items[e.id], e.selected, e.now)) else s
    else if e.RetryEnrichment? then
      if e.id in s.items then Update(s, e.id, s.items[e.id].(enrichment := Pending)) else s
    else if e.Approve? then
      s.(items := map id | id in s.items ::
           if s.items[id].job == Some(e.job) then Approved(s.items[id], e.title, e.text) else s.items[id])
    else s.(items := map id | id in s.items :: s.items[id].(indexed := 0, indexError := false))
  }

  function CaptureStep(s: State, e: Event): State
    requires Enabled(s, e) && OnCapture(e)
  {
    if e.ClaimCapture? then Lease(s, e.id, e.token, e.now)
    else if e.CaptureFails? then Fail(s, s.workers[e.k], e.now)
    else if e.CaptureEnds? then
      var w := s.workers[e.k];
      Persist(s, w.item, Some(w.token), e.capture, e.page, false, e.now, e.works)
    else Persist(s, e.id, None, e.capture, e.page, e.browser, e.now, e.works)
  }

  function Lease(s: State, id: ItemId, token: Token, now: Time): State
    requires id in s.items
  {
    var leased := Leased(s.items[id], token, now);
    Update(s, id, leased).(workers := s.workers + [Worker(id, token, leased.attempts)])
  }

  function Fail(s: State, w: Worker, now: Time): State {
    if w.item in s.items && s.items[w.item].token == Some(w.token)
    then Update(s, w.item, Uncaptured(s.items[w.item], w.attempts, now)) else s
  }

  function EnrichStep(s: State, e: Event): State
    requires Enabled(s, e) && OnEnrichment(e)
  {
    if e.EnrichRead? then s.(reading := Some(Reading(e.id, s.items[e.id].version, s.items[e.id].tags)))
    else if e.EnrichWrite? then Classify(s.(reading := None), s.reading.value, e.ok, e.classification, e.suggested)
    else s.(reading := None)
  }

  function Classify(s: State, r: Reading, ok: bool, classification: string, suggested: seq<string>): State {
    if r.item in s.items && s.items[r.item].version == r.version
    then Update(s, r.item, Classified(s.items[r.item], ok, classification, suggested, ApplyTags(r.tags, suggested))) else s
  }

  function Serve(index: map<ItemId, Document>, op: Op): map<ItemId, Document> {
    match op
    case Put(id, doc) => index[id := doc]
    case Remove(id) => index - {id}
  }

  function IndexStep(s: State, e: Event): State
    requires Enabled(s, e) && OnIndex(e)
  {
    if e.IndexRead? then
      if s.deletions != {} then s.(work := Fetched(Remove(e.id), 0))
      else s.(work := Fetched(Put(e.id, Project(e.id, s.items[e.id])), s.items[e.id].version))
    else if e.IndexSend? then s.(tasks := s.tasks + [s.work.op], work := Sent(s.work.op, s.work.version))
    else if e.IndexServe? then
      var t := s.(tasks := s.tasks[1..], index := if e.works then Serve(s.index, s.tasks[0]) else s.index);
      if s.work.Sent? && |s.tasks| == 1 && e.works then t.(work := Finished(s.work.op, s.work.version)) else t
    else if e.IndexAcknowledge? then
      var op := s.work.op;
      if op.Remove? then s.(deletions := s.deletions - {op.id}, work := Idle)
      else if op.id in s.items then
        Update(s, op.id, s.items[op.id].(indexed := s.work.version, indexError := false)).(work := Idle)
      else s.(work := Idle)
    else if e.IndexFails? then
      var op := s.work.op;
      if op.Put? && op.id in s.items then Update(s, op.id, s.items[op.id].(indexError := true)).(work := Idle)
      else s.(work := Idle)
    else s.(work := Idle)
  }

  ghost predicate Feasible(s: State, run: seq<Event>)
    decreases |run|
  {
    run == [] || (Enabled(s, run[0]) && Feasible(Step(s, run[0]), run[1..]))
  }

  ghost function Exec(s: State, run: seq<Event>): State
    requires Feasible(s, run)
    decreases |run|
  {
    if run == [] then s else Exec(Step(s, run[0]), run[1..])
  }

  // -------------------------------------------------------- index invariant

  // Deleted items wait for their removal; identifiers are never drawn twice.
  ghost predicate Known(s: State, id: ItemId) {
    id in s.ids && (id in s.items || id in s.deletions)
  }

  ghost predicate OpOk(s: State, op: Op) {
    match op
    case Put(id, _) => Known(s, id) && (id in s.items ==> s.items[id].indexed < s.items[id].version)
    case Remove(id) => id in s.ids && id !in s.items
  }

  // The version read stands for the projection read.
  ghost predicate Fresh(s: State, op: Op, version: nat) {
    match op
    case Put(id, doc) => id in s.items ==>
      && version <= s.items[id].version
      && (version == s.items[id].version ==> Same(doc, Project(id, s.items[id])))
    case Remove(_) => true
  }

  ghost predicate WorkOk(s: State) {
    match s.work
    case Idle => true
    case Fetched(op, v) => OpOk(s, op) && Fresh(s, op, v) && (op.Remove? ==> op.id in s.deletions)
    case Sent(op, v) =>
      && OpOk(s, op) && Fresh(s, op, v) && (op.Remove? ==> op.id in s.deletions)
      && (s.tasks != [] ==> s.tasks[|s.tasks| - 1] == op)
    case Finished(op, v) =>
      && OpOk(s, op) && Fresh(s, op, v) && s.tasks == []
      && (op.Put? ==> op.id in s.index && s.index[op.id] == op.doc)
      && (op.Remove? ==> op.id in s.deletions && op.id !in s.index)
  }

  // An item counted as indexed is found in the index as it is now.
  ghost predicate ItemIndexed(s: State, id: ItemId)
    requires id in s.items
  {
    var i := s.items[id];
    && id in s.ids && i.indexed <= i.version && i.version >= 1
    && (i.indexed == i.version ==> id in s.index && Same(s.index[id], Project(id, i)))
  }

  ghost predicate ItemsIndexed(s: State) {
    forall id <- s.items :: ItemIndexed(s, id)
  }

  ghost predicate IndexKnown(s: State) {
    forall id <- s.index :: Known(s, id)
  }

  ghost predicate TasksOk(s: State) {
    forall k | 0 <= k < |s.tasks| :: OpOk(s, s.tasks[k])
  }

  ghost predicate DeletionsOk(s: State) {
    forall id <- s.deletions :: id in s.ids && id !in s.items
  }

  ghost predicate IndexOk(s: State) {
    ItemsIndexed(s) && IndexKnown(s) && TasksOk(s) && DeletionsOk(s) && WorkOk(s)
  }

  // Nothing indexable changes without a new version, and nothing but an
  // acknowledgement counts as indexed.
  ghost predicate Evolves(a: Item, b: Item) {
    && b.indexed <= a.indexed
    && (b.version > a.version || (b.version == a.version && Same(Project("", a), Project("", b))))
  }

  // Rows change, appear under new identifiers, or go to the deletion queue.
  ghost predicate RowsEvolve(s: State, t: State) {
    && t.index == s.index && t.tasks == s.tasks && t.work == s.work && s.ids <= t.ids && s.deletions <= t.deletions
    && (forall id <- s.items :: if id in t.items then Evolves(s.items[id], t.items[id]) else id in t.deletions)
    && (forall id <- t.items :: id in t.ids && if id in s.items then Evolves(s.items[id], t.items[id])
                                else id !in s.ids && t.items[id].indexed == 0 && t.items[id].version >= 1)
    && (forall id <- t.deletions :: id in t.ids && id !in t.items)
  }

  lemma SameProjection(id: ItemId, a: Item, b: Item)
    requires Same(Project("", a), Project("", b))
    ensures Same(Project(id, a), Project(id, b))
  {
  }

  lemma EvolutionKeepsOp(s: State, t: State, op: Op)
    requires RowsEvolve(s, t) && OpOk(s, op)
    ensures OpOk(t, op)
  {
  }

  lemma EvolutionKeepsFresh(s: State, t: State, op: Op, version: nat)
    requires RowsEvolve(s, t) && OpOk(s, op) && Fresh(s, op, version)
    ensures Fresh(t, op, version)
  {
    if op.Put? && op.id in t.items && version == t.items[op.id].version {
      SameProjection(op.id, s.items[op.id], t.items[op.id]);
    }
  }

  lemma EvolutionKeepsItem(s: State, t: State, id: ItemId)
    requires RowsEvolve(s, t) && IndexOk(s) && id in t.items
    ensures ItemIndexed(t, id)
  {
    if id in s.items && t.items[id].indexed == t.items[id].version {
      SameProjection(id, s.items[id], t.items[id]);
    }
  }

  lemma EvolutionKeepsIndex(s: State, t: State)
    requires RowsEvolve(s, t) && IndexOk(s)
    ensures IndexOk(t)
  {
    forall id <- t.items ensures ItemIndexed(t, id) { EvolutionKeepsItem(s, t, id); }
    forall k | 0 <= k < |t.tasks| ensures OpOk(t, t.tasks[k]) { EvolutionKeepsOp(s, t, t.tasks[k]); }
    if !s.work.Idle? {
      EvolutionKeepsOp(s, t, s.work.op);
      EvolutionKeepsFresh(s, t, s.work.op, s.work.version);
    }
  }

  // ------------------------------------------------------ steps on the rows

  // The same state but for its items and for what the index never reads.
  ghost predicate OnlyItems(s: State, t: State) {
    t.index == s.index && t.tasks == s.tasks && t.work == s.work && t.ids == s.ids && t.deletions == s.deletions
  }

  lemma ItemsEvolve(s: State, t: State)
    requires ItemsIndexed(s) && DeletionsOk(s) && OnlyItems(s, t) && t.items.Keys == s.items.Keys
    requires forall id <- s.items :: Evolves(s.items[id], t.items[id])
    ensures RowsEvolve(s, t)
  {
    forall id <- s.items ensures id in t.ids { assert ItemIndexed(s, id); }
  }

  lemma RowEvolves(s: State, t: State, id: ItemId)
    requires ItemsIndexed(s) && DeletionsOk(s) && OnlyItems(s, t) && id in s.items && id in t.items
    requires t.items == s.items[id := t.items[id]] && Evolves(s.items[id], t.items[id])
    ensures RowsEvolve(s, t)
  {
    forall k <- s.items ensures k in s.ids { assert ItemIndexed(s, k); }
  }

  lemma StayEvolves(s: State, t: State)
    requires ItemsIndexed(s) && DeletionsOk(s) && OnlyItems(s, t) && t.items == s.items
    ensures RowsEvolve(s, t)
  {
    forall k <- s.items ensures k in s.ids { assert ItemIndexed(s, k); }
  }

  lemma EditEvolves(s: State, e: Event)
    requires ItemsIndexed(s) && DeletionsOk(s) && OnEdit(e)
    ensures RowsEvolve(s, EditStep(s, e))
  {
    if e.Approve? || e.Reindex? {
      ItemsEvolve(s, EditStep(s, e));
    } else if e.id in s.items {
      RowEvolves(s, EditStep(s, e), e.id);
    } else {
      StayEvolves(s, s);
    }
  }

  lemma PersistEvolves(s: State, id: ItemId, lease: Option<Token>, capture: string, page: Page, browser: bool,
      now: Time, works: bool)
    requires ItemsIndexed(s) && DeletionsOk(s)
    ensures RowsEvolve(s, Persist(s, id, lease, capture, page, browser, now, works))
  {
    var t := Persist(s, id, lease, capture, page, browser, now, works);
    if t == s { StayEvolves(s, t); } else { RowEvolves(s, t, id); }
  }

  lemma FailEvolves(s: State, w: Worker, now: Time)
    requires ItemsIndexed(s) && DeletionsOk(s)
    ensures RowsEvolve(s, Fail(s, w, now))
  {
    if Fail(s, w, now) == s { StayEvolves(s, s); } else { RowEvolves(s, Fail(s, w, now), w.item); }
  }

  lemma CaptureEvolves(s: State, e: Event)
    requires ItemsIndexed(s) && DeletionsOk(s) && Enabled(s, e) && OnCapture(e)
    ensures RowsEvolve(s, CaptureStep(s, e))
  {
    if e.ClaimCapture? {
      RowEvolves(s, CaptureStep(s, e), e.id);
    } else if e.CaptureFails? {
      FailEvolves(s, s.workers[e.k], e.now);
    } else if e.CaptureEnds? {
      PersistEvolves(s, s.workers[e.k].item, Some(s.workers[e.k].token), e.capture, e.page, false, e.now, e.works);
    } else {
      PersistEvolves(s, e.id, None, e.capture, e.page, e.browser, e.now, e.works);
    }
  }

  lemma EnrichEvolves(s: State, e: Event)
    requires ItemsIndexed(s) && DeletionsOk(s) && Enabled(s, e) && OnEnrichment(e)
    ensures RowsEvolve(s, EnrichStep(s, e))
  {
    var t := EnrichStep(s, e);
    if t.items == s.items { StayEvolves(s, t); } else { RowEvolves(s, t, s.reading.value.item); }
  }

  lemma DeleteEvolves(s: State, e: Event)
    requires IndexOk(s) && Enabled(s, e) && e.Delete?
    ensures RowsEvolve(s, Step(s, e))
  {
    forall id <- s.items ensures id in s.ids { assert ItemIndexed(s, id); }
  }

  // One new row under an identifier never drawn before.
  lemma InsertEvolves(s: State, t: State, id: ItemId, i: Item)
    requires IndexOk(s) && id !in s.ids && i.indexed == 0 && i.version >= 1
    requires OnlyItems(s, t.(ids := s.ids)) && t.ids == s.ids + {id} && t.items == s.items[id := i]
    ensures RowsEvolve(s, t) && IndexOk(t)
  {
    forall k <- s.items ensures k in s.ids { assert ItemIndexed(s, k); }
    EvolutionKeepsIndex(s, t);
  }

  lemma DrawEvolves(s: State, t: State, id: ItemId)
    requires IndexOk(s) && OnlyItems(s, t.(ids := s.ids)) && t.ids == s.ids + {id} && t.items == s.items
    ensures RowsEvolve(s, t) && IndexOk(t)
  {
    forall k <- s.items ensures k in s.ids { assert ItemIndexed(s, k); }
    EvolutionKeepsIndex(s, t);
  }

  lemma AttachEvolves(s: State, target: ItemId, url: string, title: string, o: Origin, now: Time)
    requires IndexOk(s)
    ensures RowsEvolve(s, Attach(s, target, url, title, o, now))
  {
    ItemsEvolve(s, Attach(s, target, url, title, o, now));
  }

  lemma EvolveTwice(s: State, t: State, u: State)
    requires RowsEvolve(s, t) && RowsEvolve(t, u)
    ensures RowsEvolve(s, u)
  {
  }

  lemma SaveEvolves(s: State, e: Event)
    requires IndexOk(s) && Enabled(s, e) && e.Save?
    ensures RowsEvolve(s, Step(s, e))
  {
    if Refuses(s, e.url, e.source) {
      ItemsEvolve(s, s);
    } else {
      var i := NewBookmark(e.url, e.title, e.notes, e.tags, SavedAt(e.source, e.now), e.now);
      var t := InsertBookmark(s, e.id, e.known, i);
      if e.known.None? { InsertEvolves(s, t, e.id, i); } else { DrawEvolves(s, t, e.id); }
      if e.source.Some? {
        var target := if e.known.Some? then e.known.value else e.id;
        AttachEvolves(t, target, e.url, e.title, e.source.value, e.now);
        EvolveTwice(s, t, Step(s, e));
      }
    }
  }

  lemma RowStepEvolves(s: State, e: Event)
    requires IndexOk(s) && Enabled(s, e) && !OnIndex(e)
    ensures RowsEvolve(s, Step(s, e))
  {
    if OnCapture(e) {
      CaptureEvolves(s, e);
    } else if OnEnrichment(e) {
      EnrichEvolves(s, e);
    } else if OnEdit(e) {
      EditEvolves(s, e);
    } else if e.Delete? {
      DeleteEvolves(s, e);
    } else if e.Save? {
      SaveEvolves(s, e);
    } else {
      InsertEvolves(s, Step(s, e), e.id, NewPdf(e.title, e.job, e.text, e.now));
    }
  }

  // ----------------------------------------------------- steps on the index

  lemma ReadKeepsIndex(s: State, e: Event)
    requires IndexOk(s) && Enabled(s, e) && (e.IndexRead? || e.IndexSend? || e.IndexStop?)
    ensures IndexOk(IndexStep(s, e))
  {
  }

  // A task is carried out for an item that is not counted as indexed.
  lemma ServeKeepsItem(s: State, e: Event, id: ItemId)
    requires IndexOk(s) && Enabled(s, e) && e.IndexServe? && id in s.items
    ensures ItemIndexed(IndexStep(s, e), id)
  {
    assert ItemIndexed(s, id) && OpOk(s, s.tasks[0]);
  }

  lemma ServeKeepsWork(s: State, e: Event)
    requires IndexOk(s) && Enabled(s, e) && e.IndexServe?
    ensures WorkOk(IndexStep(s, e))
  {
  }

  lemma ServeKeepsKnown(s: State, e: Event, id: ItemId)
    requires IndexKnown(s) && TasksOk(s) && Enabled(s, e) && e.IndexServe? && id in IndexStep(s, e).index
    ensures Known(IndexStep(s, e), id)
  {
    assert OpOk(s, s.tasks[0]);
  }

  lemma ServeKeepsIndex(s: State, e: Event)
    requires IndexOk(s) && Enabled(s, e) && e.IndexServe?
    ensures IndexOk(IndexStep(s, e))
  {
    var t := IndexStep(s, e);
    ServeKeepsWork(s, e);
    forall id <- t.items ensures ItemIndexed(t, id) { ServeKeepsItem(s, e, id); }
    forall id <- t.index ensures Known(t, id) { ServeKeepsKnown(s, e, id); }
    forall k | 0 <= k < |t.tasks| ensures OpOk(t, t.tasks[k]) { assert OpOk(s, s.tasks[k + 1]); }
  }

  lemma FailKeepsIndex(s: State, e: Event)
    requires IndexOk(s) && Enabled(s, e) && e.IndexFails?
    ensures IndexOk(IndexStep(s, e))
  {
    var t, op := IndexStep(s, e), s.work.op;
    var u := s.(work := Idle);
    assert IndexOk(u);
    if op.Put? && op.id in s.items {
      RowEvolves(u, t, op.id);
    } else {
      StayEvolves(u, t);
    }
    EvolutionKeepsIndex(u, t);
  }

  // The acknowledged version is the one read, whatever was written meanwhile.
  lemma AcknowledgeKeepsItem(s: State, e: Event, id: ItemId)
    requires IndexOk(s) && Enabled(s, e) && e.IndexAcknowledge? && id in s.items
    ensures id in IndexStep(s, e).items && ItemIndexed(IndexStep(s, e), id)
  {
    assert ItemIndexed(s, id);
  }

  lemma AcknowledgeKeepsKnown(s: State, e: Event, id: ItemId)
    requires IndexOk(s) && Enabled(s, e) && e.IndexAcknowledge? && id in s.index
    ensures Known(IndexStep(s, e), id)
  {
    assert Known(s, id);
  }

  lemma AcknowledgeKeepsIndex(s: State, e: Event)
    requires IndexOk(s) && Enabled(s, e) && e.IndexAcknowledge?
    ensures IndexOk(IndexStep(s, e))
  {
    var t := IndexStep(s, e);
    forall id <- t.items ensures ItemIndexed(t, id) { AcknowledgeKeepsItem(s, e, id); }
    forall id <- t.index ensures Known(t, id) { AcknowledgeKeepsKnown(s, e, id); }
    assert DeletionsOk(t);
  }

  lemma StepKeepsIndex(s: State, e: Event)
    requires IndexOk(s) && Enabled(s, e)
    ensures IndexOk(Step(s, e))
  {
    if !OnIndex(e) {
      RowStepEvolves(s, e);
      EvolutionKeepsIndex(s, Step(s, e));
    } else if e.IndexServe? {
      ServeKeepsIndex(s, e);
    } else if e.IndexAcknowledge? {
      AcknowledgeKeepsIndex(s, e);
    } else if e.IndexFails? {
      FailKeepsIndex(s, e);
    } else {
      ReadKeepsIndex(s, e);
    }
  }

  const START := State(map[], map[], map[], {}, {}, map[], [], Idle, None, [], {})

  lemma {:induction false} RunKeepsIndex(s: State, run: seq<Event>)
    requires IndexOk(s) && Feasible(s, run)
    ensures IndexOk(Exec(s, run))
    decreases |run|
  {
    if run != [] {
      StepKeepsIndex(s, run[0]);
      RunKeepsIndex(Step(s, run[0]), run[1..]);
    }
  }

  // Whatever is edited, captured, enriched, deleted, lost or refused between
  // the steps of the index worker: an item that counts as indexed is found as
  // it is now, and a removed item found in the index is waiting for removal.
  lemma {:induction false} IndexAgrees(run: seq<Event>, id: ItemId)
    requires Feasible(START, run)
    ensures var s := Exec(START, run);
            && (id in s.items ==>
                 && s.items[id].indexed <= s.items[id].version
                 && (s.items[id].indexed == s.items[id].version ==> id in s.index && Same(s.index[id], Project(id, s.items[id]))))
            && (id in s.index ==> id in s.items || id in s.deletions)
  {
    RunKeepsIndex(START, run);
    var s := Exec(START, run);
    if id in s.items { assert ItemIndexed(s, id); }
    if id in s.index { assert Known(s, id); }
  }

  ghost function OnePass(id: ItemId): seq<Event> {
    [IndexRead(id), IndexSend, IndexServe(true), IndexAcknowledge]
  }

  lemma RunFirst(s: State, e: Event, rest: seq<Event>)
    requires Enabled(s, e) && Feasible(Step(s, e), rest)
    ensures Feasible(s, [e] + rest) && Exec(s, [e] + rest) == Exec(Step(s, e), rest)
  {
    assert ([e] + rest)[1..] == rest;
  }

  // An undisturbed pass brings an item that is behind up to date, or carries
  // out one removal, and nothing else changes.
  lemma {:induction false} PassCatchesUp(s: State, id: ItemId)
    requires IndexOk(s) && s.tasks == [] && Enabled(s, IndexRead(id))
    ensures Feasible(s, OnePass(id))
    ensures var t := Exec(s, OnePass(id));
            if s.deletions != {} then t == s.(index := s.index - {id}, deletions := s.deletions - {id})
            else t == Update(s, id, s.items[id].(indexed := s.items[id].version, indexError := false))
                        .(index := s.index[id := Project(id, s.items[id])])
  {
    var a := Step(s, IndexRead(id));
    var b := Step(a, IndexSend);
    var c := Step(b, IndexServe(true));
    assert c.work == Finished(a.work.op, a.work.version);
    RunFirst(c, IndexAcknowledge, []);
    RunFirst(b, IndexServe(true), [IndexAcknowledge]);
    RunFirst(a, IndexSend, [IndexServe(true)] + [IndexAcknowledge]);
    RunFirst(s, IndexRead(id), [IndexSend] + ([IndexServe(true)] + [IndexAcknowledge]));
    assert [IndexAcknowledge] + [] == [IndexAcknowledge];
    assert [IndexRead(id)] + ([IndexSend] + ([IndexServe(true)] + [IndexAcknowledge])) == OnePass(id);
    assert s.work == Idle;
  }
}
