/** Restoring an archive into a library, one item per transaction. */
module Restoring {
  import opened Domain
  import opened Ordering
  import opened Catalogue

  datatype Error = Invalid | Unavailable
  datatype Attempt<T> = Ok(value: T) | Err(error: Error)

  datatype ArchivedCapture = ArchivedCapture(id: string, page: Page, browser: bool, readable: bool)
  datatype ArchivedEdition = ArchivedEdition(job: string, language: string, content: Option<string>, readable: bool)
  datatype ArchivedEdit = ArchivedEdit(draft: string, language: string)

  // An archived item. `readable` says of a file that its bytes have the size
  // and the checksum the manifest gives; `pdf` is the single document of old
  // archives, which have no editions.
  datatype Entry = Entry(id: ItemId, item: Item, captures: seq<ArchivedCapture>, editions: seq<ArchivedEdition>,
    pdf: Option<bool>, content: Option<string>, edit: Option<ArchivedEdit>)

  datatype Edition = Edition(item: ItemId, language: string)
  datatype JobRow = JobRow(url: string, title: string, ready: bool)

  datatype Tables = Tables(
    items: map<ItemId, Item>,
    captures: map<string, Capture>,
    jobs: map<string, JobRow>,
    editions: map<string, Edition>,
    contents: map<string, string>,
    edits: map<string, string>,
    files: nat)                         // stored files, each under a key of its own

  type Digest = string -> string

  function RestoredId(digest: Digest, id: ItemId, job: string): string {
    "restore-" + digest(id + "/" + job)
  }

  function Text(job: Option<string>): string {
    if job.Some? then job.value else ""
  }

  function Editions(e: Entry): seq<ArchivedEdition> {
    if e.editions == [] && e.pdf.Some? then [ArchivedEdition(Text(e.item.job), "", e.content, e.pdf.value)]
    else e.editions
  }

  // A new row starts without lease, job and index; an unfinished capture does
  // not start again by itself.
  function NewRow(i: Item, now: Time): Item {
    i.(tags := ApplyTags(i.tags, i.suggested),
       status := if i.status.Waiting? || i.status.Capturing? then NotCaptured else i.status,
       job := None, token := None, until := 0, attempts := 0, next := now,
       version := 1, indexed := 0, indexError := false)
  }

  // The row with the identifier, or else the row with the url.
  ghost function Find(items: map<ItemId, Item>, id: ItemId, url: string): Option<ItemId> {
    if id in items then Some(id)
    else if url == "" || HasUrl(items, url) == {} then None
    else var known :| known in HasUrl(items, url); Some(known)
  }

  // Finds the item of an entry or inserts it.
  ghost function Place(t: Tables, e: Entry, now: Time): Attempt<(Tables, ItemId)> {
    var found := Find(t.items, e.id, e.item.url);
    if found.None? then Ok((t.(items := t.items[e.id := NewRow(e.item, now)]), e.id))
    else if found.value !in t.items || t.items[found.value].kind != e.item.kind || t.items[found.value].url != e.item.url
    then Err(Invalid)
    else Ok((t, found.value))
  }

  // Whether a file can be put: its error first, then the storage's.
  function Put(readable: bool, disk: bool): Option<Error> {
    if !readable then Some(Invalid) else if !disk then Some(Unavailable) else None
  }

  function RestoreCapture(t: Tables, id: ItemId, c: ArchivedCapture, disk: bool): Attempt<Tables> {
    if c.id in t.captures then if t.captures[c.id].item != id then Err(Invalid) else Ok(t)
    else if Put(c.readable, disk).Some? then Err(Put(c.readable, disk).value)
    else Ok(t.(captures := t.captures[c.id := Capture(id, c.page, c.browser)], files := t.files + 1))
  }

  function RestoreCaptures(t: Tables, id: ItemId, cs: seq<ArchivedCapture>, disk: bool): Attempt<Tables>
    decreases |cs|
  {
    if cs == [] then Ok(t)
    else
      var rest := RestoreCaptures(t, id, cs[..|cs| - 1], disk);
      if rest.Err? then rest else RestoreCapture(rest.value, id, cs[|cs| - 1], disk)
  }

  // The first of two job identifiers that is an edition of the item.
  function EditionOf(editions: map<string, Edition>, id: ItemId, a: string, b: string): Option<string> {
    var hasA := a in editions && editions[a].item == id;
    var hasB := b in editions && editions[b].item == id;
    if hasA && hasB then Some(if Less(b, a) then b else a)
    else if hasA then Some(a)
    else if hasB then Some(b)
    else None
  }

  function Resolve(digest: Digest, t: Tables, id: ItemId, job: string): Option<string> {
    EditionOf(t.editions, id, job, RestoredId(digest, id, job))
  }

  function AddEdition(t: Tables, id: ItemId, job: string, language: string, row: JobRow): Attempt<Tables> {
    if job in t.jobs || job in t.editions then Err(Unavailable)
    else Ok(t.(jobs := t.jobs[job := row], editions := t.editions[job := Edition(id, language)]))
  }

  function RestoreEdition(digest: Digest, t: Tables, id: ItemId, item: Item, d: ArchivedEdition,
      disk: bool): Attempt<(Tables, string)> {
    var known := Resolve(digest, t, id, d.job);
    if known.Some? then Ok((t, known.value))
    else if Put(d.readable, disk).Some? then Err(Put(d.readable, disk).value)
    else
      var job := RestoredId(digest, id, d.job);
      var added := AddEdition(t, id, job, d.language, JobRow(item.url, item.title, true));
      if added.Err? then Err(added.error)
      else Ok((added.value.(files := t.files + 1,
                            contents := if d.content.Some? then t.contents[job := d.content.value] else t.contents), job))
  }

  // The tables with all editions, and the job to select.
  function RestoreEditions(digest: Digest, t: Tables, id: ItemId, item: Item, ds: seq<ArchivedEdition>,
      disk: bool): Attempt<(Tables, string)>
    decreases |ds|
  {
    if ds == [] then Ok((t, ""))
    else
      var rest := RestoreEditions(digest, t, id, item, ds[..|ds| - 1], disk);
      if rest.Err? then rest
      else
        var d := ds[|ds| - 1];
        var one := RestoreEdition(digest, rest.value.0, id, item, d, disk);
        if one.Err? then one
        else Ok((one.value.0, if rest.value.1 == "" || d.job == Text(item.job) then one.value.1 else rest.value.1))
  }

  function KeepOr(edits: map<string, string>, job: string, draft: string): map<string, string> {
    if job in edits then edits else edits[job := draft]
  }

  function RestoreEdit(digest: Digest, t: Tables, id: ItemId, item: Item,
      edit: ArchivedEdit): Attempt<(Tables, string)> {
    var known := Resolve(digest, t, id, Text(item.job));
    if known.Some? then Ok((t.(edits := KeepOr(t.edits, known.value, edit.draft)), known.value))
    else
      var job := RestoredId(digest, id, Text(item.job));
      var added := AddEdition(t, id, job, edit.language, JobRow(item.url, item.title, false));
      if added.Err? then Err(added.error)
      else Ok((added.value.(edits := KeepOr(t.edits, job, edit.draft)), job))
  }

  // The row after a restore: a job only where none was selected, and due for indexing.
  function Restored(i: Item, selected: string): Item {
    i.(job := if Text(i.job) == "" && selected != "" then Some(selected) else i.job,
       indexed := 0, indexError := false, version := i.version + 1)
  }

  // Captures, editions and the edited reading of an entry under its item.
  function Fill(digest: Digest, t: Tables, e: Entry, id: ItemId, disk: bool): Attempt<(Tables, string)> {
    var captured := RestoreCaptures(t, id, e.captures, disk);
    if captured.Err? then Err(captured.error)
    else
      var read := RestoreEditions(digest, captured.value, id, e.item, Editions(e), disk);
      if read.Err? || e.edit.None? then read
      else RestoreEdit(digest, read.value.0, id, e.item, e.edit.value)
  }

  function Mark(t: Tables, id: ItemId, selected: string): Tables
    requires id in t.items
  {
    t.(items := t.items[id := Restored(t.items[id], selected)])
  }

  ghost function RestoreItem(digest: Digest, t: Tables, e: Entry, now: Time, disk: bool): Attempt<(Tables, ItemId)> {
    var placed := Place(t, e, now);
    if placed.Err? then placed
    else
      var (t0, id) := placed.value;
      var filled := Fill(digest, t0, e, id, disk);
      if filled.Err? then Err(filled.error)
      else if id !in filled.value.0.items then Err(Unavailable)
      else Ok((Mark(filled.value.0, id, filled.value.1), id))
  }

  // What restoring some entries came to: the committed tables, where each
  // entry was placed, and the error that stopped it.
  datatype Run = Run(tables: Tables, placed: seq<ItemId>, error: Option<Error>)

  ghost function RestoreAll(digest: Digest, t: Tables, es: seq<Entry>, now: Time, disk: nat -> bool): Run
    decreases |es|
  {
    if es == [] then Run(t, [], None)
    else
      var r := RestoreAll(digest, t, es[..|es| - 1], now, disk);
      if r.error.Some? then r
      else
        var one := RestoreItem(digest, r.tables, es[|es| - 1], now, disk(|es| - 1));
        if one.Err? then r.(error := Some(one.error)) else Run(one.value.0, r.placed + [one.value.1], None)
  }

  // ------------------------------------------------- what a restore keeps

  ghost predicate UniqueUrls(items: map<ItemId, Item>) {
    forall i, j | i in items && j in items && i != j :: items[i].url == "" || items[i].url != items[j].url
  }

  // The constraints of the schema that restoring relies on.
  ghost predicate TablesOk(t: Tables) {
    && UniqueUrls(t.items) && "" !in t.jobs
    && t.editions.Keys <= t.jobs.Keys && t.contents.Keys <= t.jobs.Keys && t.edits.Keys <= t.jobs.Keys
  }

  ghost predicate Extends<K, V>(a: map<K, V>, b: map<K, V>) {
    forall k <- a :: k in b && b[k] == a[k]
  }

  // The same item but for its marks and for a job where none was selected.
  ghost predicate Remains(a: Item, b: Item) {
    && b == a.(job := b.job, version := b.version, indexed := b.indexed, indexError := b.indexError)
    && b.version >= a.version && (Text(a.job) != "" ==> b.job == a.job)
  }

  // Nothing that was there is changed or lost.
  ghost predicate Grows(t: Tables, u: Tables) {
    && (forall id <- t.items :: id in u.items && Remains(t.items[id], u.items[id]))
    && Extends(t.captures, u.captures) && Extends(t.jobs, u.jobs) && Extends(t.editions, u.editions)
    && Extends(t.contents, u.contents) && Extends(t.edits, u.edits) && t.files <= u.files
  }

  lemma GrowsOn(t: Tables, u: Tables, v: Tables)
    requires Grows(t, u) && Grows(u, v)
    ensures Grows(t, v)
  {
  }

  // Captures and files are all that restoring captures adds.
  ghost predicate CapturesAdded(t: Tables, u: Tables) {
    u == t.(captures := u.captures, files := u.files) && t.files <= u.files && Extends(t.captures, u.captures)
  }

  lemma OneCapture(t: Tables, id: ItemId, c: ArchivedCapture, disk: bool)
    requires RestoreCapture(t, id, c, disk).Ok?
    ensures var u := RestoreCapture(t, id, c, disk).value;
            CapturesAdded(t, u) && c.id in u.captures && u.captures[c.id].item == id
  {
  }

  lemma {:induction false} CapturesGrow(t: Tables, id: ItemId, cs: seq<ArchivedCapture>, disk: bool)
    requires RestoreCaptures(t, id, cs, disk).Ok?
    ensures var u := RestoreCaptures(t, id, cs, disk).value;
            CapturesAdded(t, u) && forall c <- cs :: c.id in u.captures && u.captures[c.id].item == id
    decreases |cs|
  {
    if cs != [] {
      var rest, last := cs[..|cs| - 1], cs[|cs| - 1];
      CapturesGrow(t, id, rest, disk);
      OneCapture(RestoreCaptures(t, id, rest, disk).value, id, last, disk);
      assert forall c <- cs :: c in rest || c == last;
    }
  }

  // New editions belong to the item and bring jobs of their own.
  ghost predicate EditionsGrow(t: Tables, u: Tables, id: ItemId) {
    && TablesOk(u) && u.items == t.items && u.captures == t.captures && t.files <= u.files
    && Extends(t.jobs, u.jobs) && Extends(t.editions, u.editions)
    && Extends(t.contents, u.contents) && Extends(t.edits, u.edits)
    && forall j <- u.editions :: j in t.editions || u.editions[j].item == id
  }

  lemma ResolvedIsEdition(digest: Digest, t: Tables, id: ItemId, job: string)
    ensures Resolve(digest, t, id, job).Some? ==> Resolve(digest, t, id, job).value in t.editions
    ensures TablesOk(t) && Resolve(digest, t, id, job).Some? ==> Resolve(digest, t, id, job).value != ""
  {
  }

  lemma ResolveGrows(digest: Digest, t: Tables, u: Tables, id: ItemId, job: string)
    requires Extends(t.editions, u.editions) && Resolve(digest, t, id, job).Some?
    ensures Resolve(digest, u, id, job).Some?
  {
  }

  lemma OneEdition(digest: Digest, t: Tables, id: ItemId, item: Item, d: ArchivedEdition, disk: bool)
    requires TablesOk(t) && RestoreEdition(digest, t, id, item, d, disk).Ok?
    ensures var (u, job) := RestoreEdition(digest, t, id, item, d, disk).value;
            EditionsGrow(t, u, id) && u.edits == t.edits && Resolve(digest, u, id, d.job).Some? && job != ""
  {
    ResolvedIsEdition(digest, t, id, d.job);
  }

  lemma {:induction false} AllEditions(digest: Digest, t: Tables, id: ItemId, item: Item, ds: seq<ArchivedEdition>,
      disk: bool)
    requires TablesOk(t) && RestoreEditions(digest, t, id, item, ds, disk).Ok?
    ensures var (u, job) := RestoreEditions(digest, t, id, item, ds, disk).value;
            && EditionsGrow(t, u, id) && u.edits == t.edits
            && (forall d <- ds :: Resolve(digest, u, id, d.job).Some?)
            && (job == "" <==> ds == [])
    decreases |ds|
  {
    if ds != [] {
      var rest, d := ds[..|ds| - 1], ds[|ds| - 1];
      AllEditions(digest, t, id, item, rest, disk);
      var (v, _) := RestoreEditions(digest, t, id, item, rest, disk).value;
      OneEdition(digest, v, id, item, d, disk);
      var (u, _) := RestoreEditions(digest, t, id, item, ds, disk).value;
      forall x <- ds
        ensures Resolve(digest, u, id, x.job).Some?
      {
        if x in rest { ResolveGrows(digest, v, u, id, x.job); } else { assert x == d; }
      }
    }
  }

  lemma OneEdit(digest: Digest, t: Tables, id: ItemId, item: Item, edit: ArchivedEdit)
    requires TablesOk(t) && RestoreEdit(digest, t, id, item, edit).Ok?
    ensures var (u, job) := RestoreEdit(digest, t, id, item, edit).value;
            && EditionsGrow(t, u, id) && job != ""
            && Resolve(digest, u, id, Text(item.job)) == Some(job) && job in u.edits
  {
    ResolvedIsEdition(digest, t, id, Text(item.job));
  }

  // ---------------------------------------------- entries that are present

  predicate NeedsJob(e: Entry) {
    Editions(e) != [] || e.edit.Some?
  }

  ghost predicate Filled(digest: Digest, t: Tables, e: Entry, id: ItemId) {
    && (forall c <- e.captures :: c.id in t.captures && t.captures[c.id].item == id)
    && (forall d <- Editions(e) :: Resolve(digest, t, id, d.job).Some?)
    && (e.edit.Some? ==> Resolve(digest, t, id, Text(e.item.job)).Some?)
  }

  ghost predicate Placed(t: Tables, e: Entry, id: ItemId) {
    && Find(t.items, e.id, e.item.url) == Some(id) && id in t.items
    && t.items[id].kind == e.item.kind && t.items[id].url == e.item.url
  }

  // Everything the entry asks for is there, under this item.
  ghost predicate Present(digest: Digest, t: Tables, e: Entry, id: ItemId) {
    Placed(t, e, id) && Filled(digest, t, e, id) && (NeedsJob(e) ==> Text(t.items[id].job) != "")
  }

  // The one row an entry may add.
  ghost predicate AtMostOneRow(t: Tables, u: Tables, e: Entry) {
    || u.items.Keys == t.items.Keys
    || (&& e.id !in t.items && u.items.Keys == t.items.Keys + {e.id} && u.items[e.id].url == e.item.url
        && (e.item.url != "" ==> HasUrl(t.items, e.item.url) == {}))
  }

  lemma FindIsUnique(items: map<ItemId, Item>, id: ItemId, url: string, known: ItemId)
    requires UniqueUrls(items) && known in items && items[known].url == url && id !in items && url != ""
    ensures Find(items, id, url) == Some(known)
  {
    assert known in HasUrl(items, url);
  }

  lemma PlaceAdds(t: Tables, e: Entry, now: Time)
    requires TablesOk(t) && Place(t, e, now).Ok?
    ensures var (u, id) := Place(t, e, now).value;
            TablesOk(u) && Grows(t, u) && AtMostOneRow(t, u, e) && u == t.(items := u.items) && Placed(u, e, id)
  {
    if Find(t.items, e.id, e.item.url).None? {
      var u := Place(t, e, now).value.0;
      forall i, j | i in u.items && j in u.items && i != j
        ensures u.items[i].url == "" || u.items[i].url != u.items[j].url
      {
        if i == e.id { assert j in HasUrl(t.items, e.item.url) || t.items[j].url != e.item.url; }
        if j == e.id { assert i in HasUrl(t.items, e.item.url) || t.items[i].url != e.item.url; }
      }
    }
  }

  ghost predicate FillGrows(t: Tables, u: Tables, id: ItemId) {
    && u.items == t.items && TablesOk(u) && Grows(t, u)
    && forall j <- u.editions :: j in t.editions || u.editions[j].item == id
  }

  lemma FillAdds(digest: Digest, t: Tables, e: Entry, id: ItemId, disk: bool)
    requires TablesOk(t) && Fill(digest, t, e, id, disk).Ok?
    ensures var (u, selected) := Fill(digest, t, e, id, disk).value;
            FillGrows(t, u, id) && Filled(digest, u, e, id) && (NeedsJob(e) <==> selected != "")
  {
    var t1 := RestoreCaptures(t, id, e.captures, disk).value;
    CapturesGrow(t, id, e.captures, disk);
    AllEditions(digest, t1, id, e.item, Editions(e), disk);
    var t2 := RestoreEditions(digest, t1, id, e.item, Editions(e), disk).value.0;
    var (t3, selected) := Fill(digest, t, e, id, disk).value;
    if e.edit.Some? { OneEdit(digest, t2, id, e.item, e.edit.value); }
    assert EditionsGrow(t1, t3, id);
    forall d <- Editions(e)
      ensures Resolve(digest, t3, id, d.job).Some?
    {
      ResolveGrows(digest, t2, t3, id, d.job);
    }
  }

  lemma Marking(t: Tables, e: Entry, id: ItemId, selected: string)
    requires TablesOk(t) && Placed(t, e, id)
    ensures var u := Mark(t, id, selected);
            && TablesOk(u) && Grows(t, u) && u.items.Keys == t.items.Keys && Placed(u, e, id)
            && (selected != "" ==> Text(u.items[id].job) != "")
  {
    var u := Mark(t, id, selected);
    if e.id !in t.items {
      assert id in HasUrl(t.items, e.item.url);
      FindIsUnique(u.items, e.id, e.item.url, id);
    }
  }

  // A restored entry is present, and nothing else came of it.
  lemma ItemAdds(digest: Digest, t: Tables, e: Entry, now: Time, disk: bool)
    requires TablesOk(t) && RestoreItem(digest, t, e, now, disk).Ok?
    ensures var (u, id) := RestoreItem(digest, t, e, now, disk).value;
            && TablesOk(u) && Grows(t, u) && AtMostOneRow(t, u, e) && Present(digest, u, e, id)
            && (forall j <- u.editions :: j in t.editions || u.editions[j].item == id)
  {
    var (t0, id) := Place(t, e, now).value;
    PlaceAdds(t, e, now);
    FillAdds(digest, t0, e, id, disk);
    var (t1, selected) := Fill(digest, t0, e, id, disk).value;
    Marking(t1, e, id, selected);
    GrowsOn(t, t0, t1);
    GrowsOn(t, t1, Mark(t1, id, selected));
  }

  // --------------------------------------------- what is added, and selected

  // A new capture is one of the archive's.
  ghost predicate ArchivedCaptureAt(u: Tables, id: ItemId, cs: seq<ArchivedCapture>, c: string)
    requires c in u.captures
  {
    exists i :: 0 <= i < |cs| && cs[i].id == c && u.captures[c] == Capture(id, cs[i].page, cs[i].browser)
  }

  lemma {:induction false} NewCaptures(t: Tables, id: ItemId, cs: seq<ArchivedCapture>, disk: bool)
    requires RestoreCaptures(t, id, cs, disk).Ok?
    ensures var u := RestoreCaptures(t, id, cs, disk).value;
            forall c <- u.captures :: c in t.captures || ArchivedCaptureAt(u, id, cs, c)
    decreases |cs|
  {
    if cs != [] {
      var n := |cs| - 1;
      NewCaptures(t, id, cs[..n], disk);
      var v := RestoreCaptures(t, id, cs[..n], disk).value;
      OneCapture(v, id, cs[n], disk);
      var u := RestoreCaptures(t, id, cs, disk).value;
      forall c <- u.captures | c !in t.captures
        ensures ArchivedCaptureAt(u, id, cs, c)
      {
        if c in v.captures {
          var i :| 0 <= i < n && cs[..n][i].id == c && v.captures[c] == Capture(id, cs[..n][i].page, cs[..n][i].browser);
          assert cs[i] == cs[..n][i];
        } else {
          assert cs[n].id == c;
        }
      }
    }
  }

  // A new job is one of the archive's editions, with its language and content.
  ghost predicate ArchivedEditionAt(digest: Digest, u: Tables, id: ItemId, item: Item, d: ArchivedEdition, k: string) {
    && k == RestoredId(digest, id, d.job) && k in u.jobs && u.jobs[k] == JobRow(item.url, item.title, true)
    && k in u.editions && u.editions[k] == Edition(id, d.language)
    && (if d.content.Some? then k in u.contents && u.contents[k] == d.content.value else k !in u.contents)
  }

  // Jobs that were there get neither an edition nor a content.
  ghost predicate OnlyNewJobs(t: Tables, u: Tables) {
    && (forall k <- u.contents :: k in t.contents || k !in t.jobs)
    && (forall k <- u.editions :: k in t.editions || k !in t.jobs)
  }

  lemma OneNewEdition(digest: Digest, t: Tables, id: ItemId, item: Item, d: ArchivedEdition, disk: bool)
    requires TablesOk(t) && RestoreEdition(digest, t, id, item, d, disk).Ok?
    ensures var (u, job) := RestoreEdition(digest, t, id, item, d, disk).value;
            && (job == d.job || job == RestoredId(digest, id, d.job))
            && (forall k <- u.jobs :: k in t.jobs || ArchivedEditionAt(digest, u, id, item, d, k))
            && OnlyNewJobs(t, u)
  {
  }

  lemma EditionStays(digest: Digest, t: Tables, u: Tables, id: ItemId, item: Item, d: ArchivedEdition, k: string)
    requires TablesOk(t) && ArchivedEditionAt(digest, t, id, item, d, k) && Grows(t, u)
    requires OnlyNewJobs(t, u)
    ensures ArchivedEditionAt(digest, u, id, item, d, k)
  {
  }

  ghost predicate SomeEditionAt(digest: Digest, u: Tables, id: ItemId, item: Item, ds: seq<ArchivedEdition>,
      k: string) {
    exists i :: 0 <= i < |ds| && ArchivedEditionAt(digest, u, id, item, ds[i], k)
  }

  lemma {:induction false} NewEditions(digest: Digest, t: Tables, id: ItemId, item: Item, ds: seq<ArchivedEdition>,
      disk: bool)
    requires TablesOk(t) && RestoreEditions(digest, t, id, item, ds, disk).Ok?
    ensures var u := RestoreEditions(digest, t, id, item, ds, disk).value.0;
            (forall k <- u.jobs :: k in t.jobs || SomeEditionAt(digest, u, id, item, ds, k)) && OnlyNewJobs(t, u)
    decreases |ds|
  {
    if ds != [] {
      var n := |ds| - 1;
      var v := RestoreEditions(digest, t, id, item, ds[..n], disk).value.0;
      var u := RestoreEditions(digest, t, id, item, ds, disk).value.0;
      NewEditions(digest, t, id, item, ds[..n], disk);
      AllEditions(digest, t, id, item, ds[..n], disk);
      OneEdition(digest, v, id, item, ds[n], disk);
      OneNewEdition(digest, v, id, item, ds[n], disk);
      forall k <- u.jobs | k !in t.jobs
        ensures SomeEditionAt(digest, u, id, item, ds, k)
      {
        if k in v.jobs {
          var i :| 0 <= i < n && ArchivedEditionAt(digest, v, id, item, ds[..n][i], k);
          EditionStays(digest, v, u, id, item, ds[i], k);
        } else {
          assert ArchivedEditionAt(digest, u, id, item, ds[n], k);
        }
      }
    }
  }

  // Which edition is selected: the one the archive had selected, else the first.
  ghost predicate SelectedAt(digest: Digest, id: ItemId, item: Item, ds: seq<ArchivedEdition>, selected: string) {
    exists i :: 0 <= i < |ds| && (selected == ds[i].job || selected == RestoredId(digest, id, ds[i].job))
                && (if HasJob(ds, Text(item.job)) then ds[i].job == Text(item.job) else i == 0)
  }

  predicate HasJob(ds: seq<ArchivedEdition>, job: string) {
    exists j :: 0 <= j < |ds| && ds[j].job == job
  }

  lemma HasJobBefore(ds: seq<ArchivedEdition>, job: string)
    requires ds != [] && ds[|ds| - 1].job != job
    ensures HasJob(ds[..|ds| - 1], job) == HasJob(ds, job)
  {
    if HasJob(ds, job) {
      var j :| 0 <= j < |ds| && ds[j].job == job;
      assert ds[..|ds| - 1][j].job == job;
    }
  }

  lemma {:induction false} SelectedEdition(digest: Digest, t: Tables, id: ItemId, item: Item,
      ds: seq<ArchivedEdition>, disk: bool)
    requires TablesOk(t) && RestoreEditions(digest, t, id, item, ds, disk).Ok? && ds != []
    ensures SelectedAt(digest, id, item, ds, RestoreEditions(digest, t, id, item, ds, disk).value.1)
    decreases |ds|
  {
    var n := |ds| - 1;
    var (v, before) := RestoreEditions(digest, t, id, item, ds[..n], disk).value;
    AllEditions(digest, t, id, item, ds[..n], disk);
    OneNewEdition(digest, v, id, item, ds[n], disk);
    if n > 0 {
      SelectedEdition(digest, t, id, item, ds[..n], disk);
      if ds[n].job != Text(item.job) { SelectedBefore(digest, id, item, ds, before); }
    }
  }

  lemma SelectedBefore(digest: Digest, id: ItemId, item: Item, ds: seq<ArchivedEdition>, selected: string)
    requires |ds| > 1 && ds[|ds| - 1].job != Text(item.job) && SelectedAt(digest, id, item, ds[..|ds| - 1], selected)
    ensures SelectedAt(digest, id, item, ds, selected)
  {
    var front := ds[..|ds| - 1];
    HasJobBefore(ds, Text(item.job));
    var i :| 0 <= i < |front| && (selected == front[i].job || selected == RestoredId(digest, id, front[i].job))
             && (if HasJob(front, Text(item.job)) then front[i].job == Text(item.job) else i == 0);
    assert ds[i] == front[i];
  }

  // The job of an edited reading that had to be added.
  ghost predicate ArchivedEditAt(digest: Digest, u: Tables, id: ItemId, item: Item, edit: ArchivedEdit, k: string) {
    && k == RestoredId(digest, id, Text(item.job)) && k in u.jobs && u.jobs[k] == JobRow(item.url, item.title, false)
    && k in u.editions && u.editions[k] == Edition(id, edit.language)
  }

  // The edited reading is that of the job it is looked up under.
  ghost predicate ReadingAt(digest: Digest, u: Tables, id: ItemId, item: Item, edit: ArchivedEdit, k: string) {
    && Resolve(digest, u, id, Text(item.job)) == Some(k) && k in u.edits && u.edits[k] == edit.draft
  }

  lemma NewEdit(digest: Digest, t: Tables, id: ItemId, item: Item, edit: ArchivedEdit)
    requires TablesOk(t) && RestoreEdit(digest, t, id, item, edit).Ok?
    ensures var u := RestoreEdit(digest, t, id, item, edit).value.0;
            && (forall k <- u.jobs :: k in t.jobs || ArchivedEditAt(digest, u, id, item, edit, k))
            && (forall k <- u.edits :: k in t.edits || ReadingAt(digest, u, id, item, edit, k))
            && u.contents == t.contents && OnlyNewJobs(t, u)
  {
  }

  // Everything a restored entry adds is the archive's: its captures, its
  // editions with their content, its edited reading, and nothing else; jobs
  // that were there get no more than the edited reading.
  ghost predicate OnlyArchived(digest: Digest, t: Tables, u: Tables, e: Entry, id: ItemId) {
    && (forall c <- u.captures :: c in t.captures || ArchivedCaptureAt(u, id, e.captures, c))
    && (forall k <- u.jobs :: || k in t.jobs || SomeEditionAt(digest, u, id, e.item, Editions(e), k)
                              || (e.edit.Some? && ArchivedEditAt(digest, u, id, e.item, e.edit.value, k)))
    && (forall k <- u.edits :: k in t.edits || (e.edit.Some? && ReadingAt(digest, u, id, e.item, e.edit.value, k)))
    && OnlyNewJobs(t, u)
  }

  lemma SomeEditionStays(digest: Digest, t: Tables, u: Tables, id: ItemId, item: Item, ds: seq<ArchivedEdition>,
      k: string)
    requires TablesOk(t) && Grows(t, u) && OnlyNewJobs(t, u) && SomeEditionAt(digest, t, id, item, ds, k)
    ensures SomeEditionAt(digest, u, id, item, ds, k)
  {
    var i :| 0 <= i < |ds| && ArchivedEditionAt(digest, t, id, item, ds[i], k);
    EditionStays(digest, t, u, id, item, ds[i], k);
  }

  lemma FillAddsArchived(digest: Digest, t: Tables, e: Entry, id: ItemId, disk: bool)
    requires TablesOk(t) && Fill(digest, t, e, id, disk).Ok?
    ensures OnlyArchived(digest, t, Fill(digest, t, e, id, disk).value.0, e, id)
  {
    var t1 := RestoreCaptures(t, id, e.captures, disk).value;
    CapturesGrow(t, id, e.captures, disk);
    NewCaptures(t, id, e.captures, disk);
    var t2 := RestoreEditions(digest, t1, id, e.item, Editions(e), disk).value.0;
    AllEditions(digest, t1, id, e.item, Editions(e), disk);
    NewEditions(digest, t1, id, e.item, Editions(e), disk);
    if e.edit.Some? {
      var t3 := RestoreEdit(digest, t2, id, e.item, e.edit.value).value.0;
      OneEdit(digest, t2, id, e.item, e.edit.value);
      NewEdit(digest, t2, id, e.item, e.edit.value);
      forall k <- t2.jobs | k !in t.jobs
        ensures SomeEditionAt(digest, t3, id, e.item, Editions(e), k)
      {
        SomeEditionStays(digest, t2, t3, id, e.item, Editions(e), k);
      }
      forall c <- t3.captures | c !in t.captures
        ensures ArchivedCaptureAt(t3, id, e.captures, c)
      {
        assert ArchivedCaptureAt(t1, id, e.captures, c);
      }
    } else {
      forall c <- t2.captures | c !in t.captures
        ensures ArchivedCaptureAt(t2, id, e.captures, c)
      {
        assert ArchivedCaptureAt(t1, id, e.captures, c);
      }
    }
  }

  // Into a library without the item its archived row comes back as it was, but
  // for marks, its job and an unfinished capture; and all else that is added
  // is the archive's.
  lemma ItemIsArchived(digest: Digest, t: Tables, e: Entry, now: Time, disk: bool)
    requires TablesOk(t) && RestoreItem(digest, t, e, now, disk).Ok?
    ensures var (u, id) := RestoreItem(digest, t, e, now, disk).value;
            && id in u.items && OnlyArchived(digest, t, u, e, id)
            && (id !in t.items ==> id == e.id && Remains(NewRow(e.item, now), u.items[id]))
  {
    var (t0, id) := Place(t, e, now).value;
    PlaceAdds(t, e, now);
    FillAdds(digest, t0, e, id, disk);
    FillAddsArchived(digest, t0, e, id, disk);
    var (t1, selected) := Fill(digest, t0, e, id, disk).value;
    MarkAddsNothing(digest, t, t1, e, id, selected);
  }

  lemma MarkAddsNothing(digest: Digest, t: Tables, u: Tables, e: Entry, id: ItemId, selected: string)
    requires OnlyArchived(digest, t, u, e, id) && id in u.items
    ensures OnlyArchived(digest, t, Mark(u, id, selected), e, id)
  {
    var v := Mark(u, id, selected);
    forall c <- v.captures | c !in t.captures ensures ArchivedCaptureAt(v, id, e.captures, c) {
      assert ArchivedCaptureAt(u, id, e.captures, c);
    }
    forall k <- v.jobs | k !in t.jobs && SomeEditionAt(digest, u, id, e.item, Editions(e), k)
      ensures SomeEditionAt(digest, v, id, e.item, Editions(e), k)
    {
      var i :| 0 <= i < |Editions(e)| && ArchivedEditionAt(digest, u, id, e.item, Editions(e)[i], k);
      assert ArchivedEditionAt(digest, v, id, e.item, Editions(e)[i], k);
    }
  }

  // ------------------------------------------------------- what is restored

  // A new row has every field of the archived one, its suggested tags applied,
  // and waits for nothing: an unfinished capture does not start again, and it
  // has no lease, job or index yet.
  lemma NewRowKeeps(i: Item, now: Time)
    ensures var r := NewRow(i, now);
            && r == i.(tags := r.tags, status := r.status, job := None, token := None, until := 0, attempts := 0,
                       next := now, version := 1, indexed := 0, indexError := false)
            && i.tags <= r.tags && (forall tag :: tag in r.tags <==> tag in i.tags || tag in i.suggested)
            && r.status == (if i.status == Waiting || i.status == Capturing then NotCaptured else i.status)
  {
    TagsKept(i.tags, i.suggested);
  }

  // An item without a job gets the one of the archive's edited reading, or else
  // the selected edition, and is due to be indexed; a job that is there stays.
  lemma JobIsSelected(digest: Digest, t: Tables, e: Entry, now: Time, disk: bool)
    requires TablesOk(t) && RestoreItem(digest, t, e, now, disk).Ok?
    ensures var (u, id) := RestoreItem(digest, t, e, now, disk).value;
            && id in u.items && u.items[id].indexed == 0 < u.items[id].version
            && (id in t.items && Text(t.items[id].job) != "" ==> u.items[id].job == t.items[id].job)
            && ((id !in t.items || Text(t.items[id].job) == "") && NeedsJob(e) ==>
                  u.items[id].job.Some? && FilledJob(digest, u, e, id, u.items[id].job.value))
  {
    var (t0, id) := Place(t, e, now).value;
    PlaceAdds(t, e, now);
    FillAdds(digest, t0, e, id, disk);
    if NeedsJob(e) { FillSelects(digest, t0, e, id, disk); }
  }

  // The job of the edited reading, or else the selected edition.
  ghost predicate FilledJob(digest: Digest, u: Tables, e: Entry, id: ItemId, job: string) {
    if e.edit.Some? then Resolve(digest, u, id, Text(e.item.job)) == Some(job)
    else SelectedAt(digest, id, e.item, Editions(e), job)
  }

  lemma FillSelects(digest: Digest, t: Tables, e: Entry, id: ItemId, disk: bool)
    requires TablesOk(t) && Fill(digest, t, e, id, disk).Ok? && NeedsJob(e)
    ensures var (u, job) := Fill(digest, t, e, id, disk).value; FilledJob(digest, u, e, id, job)
  {
    var u := RestoreCaptures(t, id, e.captures, disk).value;
    CapturesGrow(t, id, e.captures, disk);
    AllEditions(digest, u, id, e.item, Editions(e), disk);
    if e.edit.Some? {
      OneEdit(digest, RestoreEditions(digest, u, id, e.item, Editions(e), disk).value.0, id, e.item, e.edit.value);
    } else {
      SelectedEdition(digest, u, id, e.item, Editions(e), disk);
    }
  }

  // --------------------------------------------------- when it is restored

  // A capture is there for this item, or its file can be stored.
  predicate CaptureFits(t: Tables, id: ItemId, c: ArchivedCapture, disk: bool) {
    if c.id in t.captures then t.captures[c.id].item == id else c.readable && disk
  }

  // A job under its restored identity is not somebody else's.
  predicate JobFits(digest: Digest, t: Tables, id: ItemId, job: string) {
    var restored := RestoredId(digest, id, job);
    Resolve(digest, t, id, job).Some? || (restored !in t.jobs && restored !in t.editions)
  }

  predicate EditionFits(digest: Digest, t: Tables, id: ItemId, d: ArchivedEdition, disk: bool) {
    JobFits(digest, t, id, d.job) && (Resolve(digest, t, id, d.job).Some? || (d.readable && disk))
  }

  lemma OneCaptureFits(t: Tables, id: ItemId, c: ArchivedCapture, disk: bool)
    ensures RestoreCapture(t, id, c, disk).Ok? <==> CaptureFits(t, id, c, disk)
    ensures !CaptureFits(t, id, c, disk) ==>
              RestoreCapture(t, id, c, disk) == Err(if c.id in t.captures || !c.readable then Invalid else Unavailable)
  {
  }

  lemma OneEditionFits(digest: Digest, t: Tables, id: ItemId, item: Item, d: ArchivedEdition, disk: bool)
    ensures RestoreEdition(digest, t, id, item, d, disk).Ok? <==> EditionFits(digest, t, id, d, disk)
  {
  }

  lemma {:induction false} CapturesFit(t: Tables, id: ItemId, cs: seq<ArchivedCapture>, disk: bool)
    requires forall c <- cs :: CaptureFits(t, id, c, disk)
    ensures RestoreCaptures(t, id, cs, disk).Ok?
    decreases |cs|
  {
    if cs != [] {
      var front, last := cs[..|cs| - 1], cs[|cs| - 1];
      assert last in cs && forall c <- front :: c in cs;
      CapturesFit(t, id, front, disk);
      CapturesGrow(t, id, front, disk);
      NewCaptures(t, id, front, disk);
      OneCaptureFits(RestoreCaptures(t, id, front, disk).value, id, last, disk);
    }
  }

  lemma JobStillFits(digest: Digest, t: Tables, u: Tables, id: ItemId, item: Item, ds: seq<ArchivedEdition>, job: string)
    requires JobFits(digest, t, id, job) && EditionsGrow(t, u, id) && TablesOk(t)
    requires OnlyNewJobs(t, u) && forall k <- u.jobs :: k in t.jobs || SomeEditionAt(digest, u, id, item, ds, k)
    ensures JobFits(digest, u, id, job)
    ensures Resolve(digest, t, id, job).Some? ==> Resolve(digest, u, id, job).Some?
  {
    if Resolve(digest, t, id, job).Some? {
      ResolveGrows(digest, t, u, id, job);
    } else {
      var restored := RestoredId(digest, id, job);
      if restored in u.jobs {
        var i :| 0 <= i < |ds| && ArchivedEditionAt(digest, u, id, item, ds[i], restored);
        assert restored in u.editions && u.editions[restored].item == id;
      }
    }
  }

  lemma EditionStillFits(digest: Digest, t: Tables, id: ItemId, item: Item, ds: seq<ArchivedEdition>,
      d: ArchivedEdition, disk: bool)
    requires TablesOk(t) && RestoreEditions(digest, t, id, item, ds, disk).Ok? && EditionFits(digest, t, id, d, disk)
    ensures EditionFits(digest, RestoreEditions(digest, t, id, item, ds, disk).value.0, id, d, disk)
  {
    AllEditions(digest, t, id, item, ds, disk);
    NewEditions(digest, t, id, item, ds, disk);
    JobStillFits(digest, t, RestoreEditions(digest, t, id, item, ds, disk).value.0, id, item, ds, d.job);
  }

  lemma {:induction false} EditionsFit(digest: Digest, t: Tables, id: ItemId, item: Item, ds: seq<ArchivedEdition>,
      disk: bool)
    requires TablesOk(t) && forall d <- ds :: EditionFits(digest, t, id, d, disk)
    ensures RestoreEditions(digest, t, id, item, ds, disk).Ok?
    decreases |ds|
  {
    if ds != [] {
      var front, last := ds[..|ds| - 1], ds[|ds| - 1];
      assert last in ds && forall d <- front :: d in ds;
      EditionsFit(digest, t, id, item, front, disk);
      EditionStillFits(digest, t, id, item, front, last, disk);
      OneEditionFits(digest, RestoreEditions(digest, t, id, item, front, disk).value.0, id, item, last, disk);
    }
  }

  // The entry can be restored: its item is new or of the same kind and url, and
  // its captures, editions and edited reading fit.
  ghost predicate Fits(digest: Digest, t: Tables, e: Entry, disk: bool) {
    var found := Find(t.items, e.id, e.item.url);
    var id := if found.Some? then found.value else e.id;
    && (found.Some? ==> id in t.items && t.items[id].kind == e.item.kind && t.items[id].url == e.item.url)
    && (forall c <- e.captures :: CaptureFits(t, id, c, disk))
    && (forall d <- Editions(e) :: EditionFits(digest, t, id, d, disk))
    && (e.edit.Some? ==> JobFits(digest, t, id, Text(e.item.job)))
  }

  lemma FillSucceeds(digest: Digest, t: Tables, e: Entry, id: ItemId, disk: bool)
    requires TablesOk(t) && (forall c <- e.captures :: CaptureFits(t, id, c, disk))
    requires forall d <- Editions(e) :: EditionFits(digest, t, id, d, disk)
    requires e.edit.Some? ==> JobFits(digest, t, id, Text(e.item.job))
    ensures Fill(digest, t, e, id, disk).Ok?
  {
    CapturesFit(t, id, e.captures, disk);
    CapturesGrow(t, id, e.captures, disk);
    var u := RestoreCaptures(t, id, e.captures, disk).value;
    forall d <- Editions(e) ensures EditionFits(digest, u, id, d, disk) {
      assert Resolve(digest, u, id, d.job) == Resolve(digest, t, id, d.job);
    }
    EditionsFit(digest, u, id, e.item, Editions(e), disk);
    if e.edit.Some? {
      assert Resolve(digest, u, id, Text(e.item.job)) == Resolve(digest, t, id, Text(e.item.job));
      var v := RestoreEditions(digest, u, id, e.item, Editions(e), disk).value.0;
      AllEditions(digest, u, id, e.item, Editions(e), disk);
      NewEditions(digest, u, id, e.item, Editions(e), disk);
      JobStillFits(digest, u, v, id, e.item, Editions(e), Text(e.item.job));
    }
  }

  // What fits is restored.
  lemma FittingIsRestored(digest: Digest, t: Tables, e: Entry, now: Time, disk: bool)
    requires TablesOk(t) && Fits(digest, t, e, disk)
    ensures RestoreItem(digest, t, e, now, disk).Ok?
  {
    assert Place(t, e, now).Ok?;
    var (t0, id) := Place(t, e, now).value;
    PlaceAdds(t, e, now);
    forall d <- Editions(e) ensures EditionFits(digest, t0, id, d, disk) {
      assert Resolve(digest, t0, id, d.job) == Resolve(digest, t, id, d.job);
    }
    assert Resolve(digest, t0, id, Text(e.item.job)) == Resolve(digest, t, id, Text(e.item.job));
    FillSucceeds(digest, t0, e, id, disk);
    FillAdds(digest, t0, e, id, disk);
  }

  // ------------------------------------------------------- the first restore

  predicate DistinctIds(es: seq<Entry>) {
    forall i, j | 0 <= i < j < |es| :: es[i].id != es[j].id
  }

  lemma FrontDistinct(es: seq<Entry>, n: nat)
    requires DistinctIds(es) && n <= |es|
    ensures DistinctIds(es[..n])
  {
  }

  lemma StaysPlaced(t: Tables, u: Tables, e: Entry, id: ItemId, other: Entry)
    requires TablesOk(u) && Placed(t, e, id) && Grows(t, u) && AtMostOneRow(t, u, other) && other.id != e.id
    ensures Placed(u, e, id)
  {
    if e.id !in t.items {
      assert id in HasUrl(t.items, e.item.url);
      FindIsUnique(u.items, e.id, e.item.url, id);
    }
  }

  lemma StaysFilled(digest: Digest, t: Tables, u: Tables, e: Entry, id: ItemId)
    requires Filled(digest, t, e, id) && Grows(t, u)
    ensures Filled(digest, u, e, id)
  {
    forall d <- Editions(e) ensures Resolve(digest, u, id, d.job).Some? { ResolveGrows(digest, t, u, id, d.job); }
    if e.edit.Some? { ResolveGrows(digest, t, u, id, Text(e.item.job)); }
  }

  lemma StaysPresent(digest: Digest, t: Tables, u: Tables, e: Entry, id: ItemId, other: Entry)
    requires TablesOk(u) && Present(digest, t, e, id) && Grows(t, u) && AtMostOneRow(t, u, other) && other.id != e.id
    ensures Present(digest, u, e, id)
  {
    StaysPlaced(t, u, e, id, other);
    StaysFilled(digest, t, u, e, id);
  }

  ghost predicate AllPresent(digest: Digest, t: Tables, es: seq<Entry>, ids: seq<ItemId>) {
    |ids| <= |es| && forall k | 0 <= k < |ids| :: Present(digest, t, es[k], ids[k])
  }

  lemma LastPresent(digest: Digest, t: Tables, u: Tables, es: seq<Entry>, ids: seq<ItemId>, id: ItemId)
    requires |es| == |ids| + 1 && DistinctIds(es) && AllPresent(digest, t, es[..|ids|], ids)
    requires TablesOk(u) && Grows(t, u) && AtMostOneRow(t, u, es[|ids|]) && Present(digest, u, es[|ids|], id)
    ensures AllPresent(digest, u, es, ids + [id])
  {
    forall k | 0 <= k < |ids|
      ensures Present(digest, u, es[k], ids[k])
    {
      assert Present(digest, t, es[..|ids|][k], ids[k]);
      StaysPresent(digest, t, u, es[k], ids[k], es[|ids|]);
    }
  }

  lemma LastOne(digest: Digest, t: Tables, es: seq<Entry>, now: Time, disk: nat -> bool)
    requires es != []
    ensures var n := |es| - 1;
            var r := RestoreAll(digest, t, es[..n], now, disk);
            var one := RestoreItem(digest, r.tables, es[n], now, disk(n));
            RestoreAll(digest, t, es, now, disk) ==
              if r.error.Some? then r
              else if one.Err? then r.(error := Some(one.error))
              else Run(one.value.0, r.placed + [one.value.1], None)
  {
  }

  lemma OneOn(digest: Digest, t: Tables, es: seq<Entry>, k: nat, now: Time, disk: nat -> bool, u: Tables,
      ids: seq<ItemId>)
    requires k < |es| && RestoreAll(digest, t, es[..k], now, disk) == Run(u, ids, None)
    ensures var one := RestoreItem(digest, u, es[k], now, disk(k));
            RestoreAll(digest, t, es[..k + 1], now, disk)
            == if one.Err? then Run(u, ids, Some(one.error)) else Run(one.value.0, ids + [one.value.1], None)
  {
    LastOne(digest, t, es[..k + 1], now, disk);
    assert es[..k + 1][..k] == es[..k];
  }

  // What any number of restored entries adds.
  ghost predicate Added(digest: Digest, t: Tables, es: seq<Entry>, r: Run) {
    && TablesOk(r.tables) && Grows(t, r.tables) && AllPresent(digest, r.tables, es, r.placed)
    && (r.error.None? ==> |r.placed| == |es|)
  }

  lemma OneMoreAdded(digest: Digest, t: Tables, es: seq<Entry>, r: Run, now: Time, disk: bool)
    requires es != [] && DistinctIds(es) && r.error.None? && Added(digest, t, es[..|es| - 1], r)
    requires RestoreItem(digest, r.tables, es[|es| - 1], now, disk).Ok?
    ensures var (u, id) := RestoreItem(digest, r.tables, es[|es| - 1], now, disk).value;
            Added(digest, t, es, Run(u, r.placed + [id], None))
  {
    var (u, id) := RestoreItem(digest, r.tables, es[|es| - 1], now, disk).value;
    ItemAdds(digest, r.tables, es[|es| - 1], now, disk);
    GrowsOn(t, r.tables, u);
    LastPresent(digest, r.tables, u, es, r.placed, id);
  }

  lemma MoreEntries(digest: Digest, t: Tables, es: seq<Entry>, n: nat, r: Run)
    requires n <= |es| && Added(digest, t, es[..n], r) && r.error.Some?
    ensures Added(digest, t, es, r)
  {
    forall k | 0 <= k < |r.placed| ensures Present(digest, r.tables, es[k], r.placed[k]) {
      assert Present(digest, r.tables, es[..n][k], r.placed[k]);
    }
  }

  lemma AddsNext(digest: Digest, t: Tables, es: seq<Entry>, r: Run, now: Time, disk: bool)
    requires es != [] && DistinctIds(es) && Added(digest, t, es[..|es| - 1], r)
    ensures var one := RestoreItem(digest, r.tables, es[|es| - 1], now, disk);
            Added(digest, t, es, if r.error.Some? then r
                                 else if one.Err? then r.(error := Some(one.error))
                                 else Run(one.value.0, r.placed + [one.value.1], None))
  {
    var n := |es| - 1;
    var one := RestoreItem(digest, r.tables, es[n], now, disk);
    if r.error.Some? {
      MoreEntries(digest, t, es, n, r);
    } else if one.Err? {
      MoreEntries(digest, t, es, n, r.(error := Some(one.error)));
    } else {
      OneMoreAdded(digest, t, es, r, now, disk);
    }
  }

  // However far a restore gets, it changes nothing that was there, and the
  // entries it has counted are present.
  lemma {:induction false} RestoreAdds(digest: Digest, t: Tables, es: seq<Entry>, now: Time, disk: nat -> bool)
    requires TablesOk(t) && DistinctIds(es)
    ensures Added(digest, t, es, RestoreAll(digest, t, es, now, disk))
    decreases |es|
  {
    if es != [] {
      var n := |es| - 1;
      FrontDistinct(es, n);
      RestoreAdds(digest, t, es[..n], now, disk);
      AddsNext(digest, t, es, RestoreAll(digest, t, es[..n], now, disk), now, disk(n));
      LastOne(digest, t, es, now, disk);
    }
  }

  // A restored entry fitted: nothing of another item was taken for its own.
  lemma RestoredFitted(digest: Digest, t: Tables, e: Entry, now: Time, disk: bool)
    requires TablesOk(t) && RestoreItem(digest, t, e, now, disk).Ok?
    ensures var id := RestoreItem(digest, t, e, now, disk).value.1;
            && (id in t.items ==> t.items[id].kind == e.item.kind && t.items[id].url == e.item.url)
            && forall c <- e.captures :: c.id in t.captures ==> t.captures[c.id].item == id
  {
    ItemAdds(digest, t, e, now, disk);
  }

  // ------------------------------------------------ into an empty library

  const EMPTY := Tables(map[], map[], map[], map[], map[], map[], 0)

  predicate DistinctUrls(es: seq<Entry>) {
    forall i, j | 0 <= i < j < |es| :: es[i].item.url == "" || es[i].item.url != es[j].item.url
  }

  predicate CaptureFrom(e: Entry, c: string) {
    exists k :: 0 <= k < |e.captures| && e.captures[k].id == c
  }

  // A job is restored from an edition or for the edited reading.
  predicate JobFrom(digest: Digest, e: Entry, job: string) {
    || (exists k :: 0 <= k < |Editions(e)| && job == RestoredId(digest, e.id, Editions(e)[k].job))
    || (e.edit.Some? && job == RestoredId(digest, e.id, Text(e.item.job)))
  }

  // No two entries share an identifier, a url, a capture or a restored job.
  ghost predicate Apart(digest: Digest, es: seq<Entry>) {
    && DistinctIds(es) && DistinctUrls(es)
    && (forall i, j, c | 0 <= i < j < |es| :: !(CaptureFrom(es[i], c) && CaptureFrom(es[j], c)))
    && (forall i, j, k | 0 <= i < j < |es| :: !(JobFrom(digest, es[i], k) && JobFrom(digest, es[j], k)))
  }

  // Every file of the entry can be read.
  predicate Intact(e: Entry) {
    && (forall c <- e.captures :: c.readable)
    && forall d <- Editions(e) :: d.readable
  }

  ghost predicate OnlyEntries(digest: Digest, es: seq<Entry>, n: nat, t: Tables)
    requires n <= |es|
  {
    && (forall id <- t.items :: exists i :: 0 <= i < n && es[i].id == id && es[i].item.url == t.items[id].url)
    && (forall c <- t.captures :: exists i :: 0 <= i < n && CaptureFrom(es[i], c))
    && (forall k <- t.jobs :: exists i :: 0 <= i < n && JobFrom(digest, es[i], k))
    && (forall k <- t.editions :: t.editions[k].item in t.items)
  }

  lemma NextIsNew(digest: Digest, es: seq<Entry>, n: nat, t: Tables)
    requires n < |es| && Apart(digest, es) && OnlyEntries(digest, es, n, t)
    ensures Find(t.items, es[n].id, es[n].item.url) == None
  {
    if es[n].id in t.items { assert false; }
    if es[n].item.url != "" {
      forall id <- t.items ensures t.items[id].url != es[n].item.url {
        var i :| 0 <= i < n && es[i].id == id && es[i].item.url == t.items[id].url;
      }
      assert HasUrl(t.items, es[n].item.url) == {};
    }
  }

  lemma NextFits(digest: Digest, es: seq<Entry>, n: nat, t: Tables)
    requires n < |es| && Apart(digest, es) && OnlyEntries(digest, es, n, t) && TablesOk(t) && Intact(es[n])
    ensures Fits(digest, t, es[n], true)
  {
    var e := es[n];
    NextIsNew(digest, es, n, t);
    forall c <- e.captures ensures CaptureFits(t, e.id, c, true) {
      assert CaptureFrom(e, c.id);
      if c.id in t.captures { assert false; }
    }
    forall d <- Editions(e) ensures EditionFits(digest, t, e.id, d, true) {
      JobIsNew(digest, es, n, t, d.job);
    }
    if e.edit.Some? { JobIsNew(digest, es, n, t, Text(e.item.job)); }
  }

  lemma JobIsNew(digest: Digest, es: seq<Entry>, n: nat, t: Tables, job: string)
    requires n < |es| && Apart(digest, es) && OnlyEntries(digest, es, n, t) && TablesOk(t)
    requires JobFrom(digest, es[n], RestoredId(digest, es[n].id, job))
    ensures JobFits(digest, t, es[n].id, job)
  {
    var k := RestoredId(digest, es[n].id, job);
    if k in t.jobs { assert false; }
  }

  lemma StillItems(digest: Digest, es: seq<Entry>, n: nat, next: nat, t: Tables, u: Tables)
    requires n < next == n + 1 <= |es| && OnlyEntries(digest, es, n, t) && Grows(t, u)
    requires u.items.Keys == t.items.Keys + {es[n].id} && es[n].id !in t.items && u.items[es[n].id].url == es[n].item.url
    ensures forall id <- u.items :: exists i :: 0 <= i < next && es[i].id == id && es[i].item.url == u.items[id].url
  {
    forall id <- u.items ensures exists i :: 0 <= i < next && es[i].id == id && es[i].item.url == u.items[id].url {
      if id in t.items {
        var i :| 0 <= i < n && es[i].id == id && es[i].item.url == t.items[id].url;
        assert 0 <= i < next && es[i].id == id && es[i].item.url == u.items[id].url;
      } else {
        assert 0 <= n < next && es[n].id == id;
      }
    }
  }

  lemma StillCaptures(digest: Digest, es: seq<Entry>, n: nat, next: nat, t: Tables, u: Tables)
    requires n < next == n + 1 <= |es| && OnlyEntries(digest, es, n, t)
    requires forall c <- u.captures :: c in t.captures || ArchivedCaptureAt(u, es[n].id, es[n].captures, c)
    ensures forall c <- u.captures :: exists i :: 0 <= i < next && CaptureFrom(es[i], c)
  {
    forall c <- u.captures ensures exists i :: 0 <= i < next && CaptureFrom(es[i], c) {
      if c in t.captures {
        var i :| 0 <= i < n && CaptureFrom(es[i], c);
        assert 0 <= i < next && CaptureFrom(es[i], c);
      } else {
        assert CaptureFrom(es[n], c);
      }
    }
  }

  lemma StillJobs(digest: Digest, es: seq<Entry>, n: nat, next: nat, t: Tables, u: Tables)
    requires n < next == n + 1 <= |es| && OnlyEntries(digest, es, n, t) && OnlyArchived(digest, t, u, es[n], es[n].id)
    ensures forall k <- u.jobs :: exists i :: 0 <= i < next && JobFrom(digest, es[i], k)
  {
    forall k <- u.jobs ensures exists i :: 0 <= i < next && JobFrom(digest, es[i], k) {
      if k in t.jobs {
        var i :| 0 <= i < n && JobFrom(digest, es[i], k);
        assert 0 <= i < next && JobFrom(digest, es[i], k);
      } else {
        assert JobFrom(digest, es[n], k);
      }
    }
  }

  lemma StillOnlyEntries(digest: Digest, es: seq<Entry>, n: nat, t: Tables, now: Time)
    requires n < |es| && Apart(digest, es) && OnlyEntries(digest, es, n, t) && TablesOk(t)
    requires RestoreItem(digest, t, es[n], now, true).Ok?
    ensures var (u, id) := RestoreItem(digest, t, es[n], now, true).value;
            id == es[n].id && OnlyEntries(digest, es, n + 1, u)
  {
    var (u, id) := RestoreItem(digest, t, es[n], now, true).value;
    NextIsNew(digest, es, n, t);
    ItemAdds(digest, t, es[n], now, true);
    ItemIsArchived(digest, t, es[n], now, true);
    StillItems(digest, es, n, n + 1, t, u);
    StillCaptures(digest, es, n, n + 1, t, u);
    StillJobs(digest, es, n, n + 1, t, u);
  }

  lemma NextIsRestored(digest: Digest, es: seq<Entry>, n: nat, t: Tables, now: Time)
    requires n < |es| && Apart(digest, es) && Intact(es[n]) && OnlyEntries(digest, es, n, t) && TablesOk(t)
    ensures var one := RestoreItem(digest, t, es[n], now, true);
            one.Ok? && one.value.1 == es[n].id && OnlyEntries(digest, es, n + 1, one.value.0) && TablesOk(one.value.0)
  {
    NextFits(digest, es, n, t);
    FittingIsRestored(digest, t, es[n], now, true);
    StillOnlyEntries(digest, es, n, t, now);
    ItemAdds(digest, t, es[n], now, true);
  }

  // The first n entries are restored, each under its own identifier.
  ghost predicate AllRestored(digest: Digest, es: seq<Entry>, n: nat, r: Run)
    requires n <= |es|
  {
    && r.error.None? && |r.placed| == n && (forall i | 0 <= i < n :: r.placed[i] == es[i].id)
    && TablesOk(r.tables) && OnlyEntries(digest, es, n, r.tables)
  }

  lemma NextAllRestored(digest: Digest, es: seq<Entry>, n: nat, r: Run, now: Time)
    requires n < |es| && Apart(digest, es) && Intact(es[n]) && AllRestored(digest, es, n, r)
    ensures var one := RestoreItem(digest, r.tables, es[n], now, true);
            one.Ok? && AllRestored(digest, es, n + 1, Run(one.value.0, r.placed + [one.value.1], None))
  {
    NextIsRestored(digest, es, n, r.tables, now);
  }

  lemma {:induction false} RestoredUpTo(digest: Digest, es: seq<Entry>, n: nat, now: Time, disk: nat -> bool)
    requires Apart(digest, es) && (forall e <- es :: Intact(e)) && (forall k: nat :: disk(k)) && n <= |es|
    ensures AllRestored(digest, es, n, RestoreAll(digest, EMPTY, es[..n], now, disk))
    decreases n
  {
    if n > 0 {
      RestoredUpTo(digest, es, n - 1, now, disk);
      var r := RestoreAll(digest, EMPTY, es[..n - 1], now, disk);
      NextAllRestored(digest, es, n - 1, r, now);
      OneOn(digest, EMPTY, es, n - 1, now, disk, r.tables, r.placed);
    }
  }

  // An intact archive of entries apart is restored into an empty library, every
  // entry under its own identifier, and nothing but the archive is there then.
  lemma IntactIsRestored(digest: Digest, es: seq<Entry>, now: Time, disk: nat -> bool)
    requires Apart(digest, es) && (forall e <- es :: Intact(e)) && forall k: nat :: disk(k)
    ensures var r := RestoreAll(digest, EMPTY, es, now, disk);
            && r.error.None? && |r.placed| == |es| && (forall i | 0 <= i < |es| :: r.placed[i] == es[i].id)
            && OnlyEntries(digest, es, |es|, r.tables) && AllPresent(digest, r.tables, es, r.placed)
  {
    RestoredUpTo(digest, es, |es|, now, disk);
    assert es[..|es|] == es;
    RestoreAdds(digest, EMPTY, es, now, disk);
  }

  // ------------------------------------------------------ the second restore

  ghost function EditsAgain(digest: Digest, t: Tables, e: Entry, id: ItemId): map<string, string>
    requires Filled(digest, t, e, id)
  {
    if e.edit.None? then t.edits else KeepOr(t.edits, Resolve(digest, t, id, Text(e.item.job)).value, e.edit.value.draft)
  }

  lemma {:induction false} CapturesAgain(t: Tables, id: ItemId, cs: seq<ArchivedCapture>, disk: bool)
    requires forall c <- cs :: c.id in t.captures && t.captures[c.id].item == id
    ensures RestoreCaptures(t, id, cs, disk) == Ok(t)
    decreases |cs|
  {
    if cs != [] { CapturesAgain(t, id, cs[..|cs| - 1], disk); }
  }

  lemma {:induction false} EditionsAgain(digest: Digest, t: Tables, id: ItemId, item: Item, ds: seq<ArchivedEdition>,
      disk: bool)
    requires forall d <- ds :: Resolve(digest, t, id, d.job).Some?
    ensures var r := RestoreEditions(digest, t, id, item, ds, disk); r.Ok? && r.value.0 == t
    decreases |ds|
  {
    if ds != [] { EditionsAgain(digest, t, id, item, ds[..|ds| - 1], disk); }
  }

  lemma FillAgain(digest: Digest, t: Tables, e: Entry, id: ItemId, disk: bool)
    requires Filled(digest, t, e, id)
    ensures var r := Fill(digest, t, e, id, disk); r.Ok? && r.value.0 == t.(edits := EditsAgain(digest, t, e, id))
  {
    CapturesAgain(t, id, e.captures, disk);
    EditionsAgain(digest, t, id, e.item, Editions(e), disk);
  }

  // A present entry is only marked, and at most its edited reading is added.
  lemma ItemAgain(digest: Digest, t: Tables, e: Entry, id: ItemId, now: Time, disk: bool)
    requires TablesOk(t) && Present(digest, t, e, id)
    ensures RestoreItem(digest, t, e, now, disk) == Ok((Mark(t, id, "").(edits := EditsAgain(digest, t, e, id)), id))
  {
    FillAgain(digest, t, e, id, disk);
    FillAdds(digest, t, e, id, disk);
  }

  // The same but for version, index marker and the due time of a new row.
  predicate SameItem(a: Item, b: Item) {
    b == a.(version := b.version, indexed := b.indexed, indexError := b.indexError, next := b.next)
  }

  // Equal in every table, but for such marks and for the edited readings.
  ghost predicate SameLibrary(t: Tables, u: Tables) {
    && t.items.Keys == u.items.Keys && (forall id <- t.items :: SameItem(t.items[id], u.items[id]))
    && u == t.(items := u.items, edits := u.edits)
  }

  lemma SameOn(t: Tables, u: Tables, v: Tables)
    requires SameLibrary(t, u) && SameLibrary(u, v)
    ensures SameLibrary(t, v) && SameLibrary(u, t)
  {
  }

  lemma FindSame(t: Tables, u: Tables, id: ItemId, url: string)
    requires SameLibrary(t, u) && TablesOk(t) && TablesOk(u)
    ensures Find(t.items, id, url) == Find(u.items, id, url)
  {
    assert HasUrl(t.items, url) == HasUrl(u.items, url);
    if id !in t.items && url != "" && HasUrl(t.items, url) != {} {
      var known :| known in HasUrl(t.items, url);
      FindIsUnique(t.items, id, url, known);
      FindIsUnique(u.items, id, url, known);
    }
  }

  lemma PresentInSame(digest: Digest, t: Tables, u: Tables, e: Entry, id: ItemId)
    requires SameLibrary(t, u) && TablesOk(t) && TablesOk(u) && Present(digest, t, e, id)
    ensures Present(digest, u, e, id)
  {
    FindSame(t, u, e.id, e.item.url);
    assert SameItem(t.items[id], u.items[id]);
  }

  // The guard of the second insertion of an edited reading.
  ghost predicate EditStays(digest: Digest, t: Tables, e: Entry, id: ItemId) {
    e.edit.Some? ==>
      Resolve(digest, t, id, Text(e.item.job)).Some? && Resolve(digest, t, id, Text(e.item.job)).value in t.edits
  }

  lemma MarkIsSame(t: Tables, id: ItemId, edits: map<string, string>)
    requires TablesOk(t) && id in t.items && edits.Keys <= t.jobs.Keys
    ensures var u := Mark(t, id, "").(edits := edits); SameLibrary(t, u) && TablesOk(u)
  {
  }

  // Marks alone have changed, and no edited reading exactly if each entry with
  // one finds its reading there.
  ghost predicate OnlyMarked(digest: Digest, t: Tables, es: seq<Entry>, ids: seq<ItemId>, r: Run)
    requires |ids| == |es|
  {
    && r.error.None? && r.placed == ids && SameLibrary(t, r.tables) && TablesOk(r.tables)
    && EditsAdded(digest, t, es, ids, r.tables.edits)
  }

  ghost predicate EditsAdded(digest: Digest, t: Tables, es: seq<Entry>, ids: seq<ItemId>, edits: map<string, string>)
    requires |ids| == |es|
  {
    && Extends(t.edits, edits)
    && (edits == t.edits <==> forall k | 0 <= k < |es| :: EditStays(digest, t, es[k], ids[k]))
  }

  lemma LastEdit(digest: Digest, t: Tables, es: seq<Entry>, ids: seq<ItemId>, before: map<string, string>,
      after: map<string, string>)
    requires es != [] && |ids| == |es| && AllPresent(digest, t, es, ids)
    requires EditsAdded(digest, t, es[..|es| - 1], ids[..|es| - 1], before)
    requires var n := |es| - 1;
             after == if es[n].edit.None? then before
                      else KeepOr(before, Resolve(digest, t, ids[n], Text(es[n].item.job)).value, es[n].edit.value.draft)
    ensures EditsAdded(digest, t, es, ids, after)
  {
    var n := |es| - 1;
    assert Present(digest, t, es[n], ids[n]);
    assert forall k | 0 <= k < n :: es[..n][k] == es[k] && ids[..n][k] == ids[k];
    if after == t.edits {
      assert before == t.edits by { assert forall j <- before :: j in after && before[j] == after[j]; }
      assert EditStays(digest, t, es[n], ids[n]);
      forall k | 0 <= k < |es| ensures EditStays(digest, t, es[k], ids[k]) {
        if k < n { assert EditStays(digest, t, es[..n][k], ids[..n][k]); }
      }
    }
  }

  lemma ItemAgainLater(digest: Digest, t: Tables, u: Tables, e: Entry, id: ItemId, now: Time, disk: bool)
    requires TablesOk(t) && TablesOk(u) && Present(digest, t, e, id) && SameLibrary(t, u)
    ensures Present(digest, u, e, id)
    ensures var one := RestoreItem(digest, u, e, now, disk);
            && one.Ok? && one.value.1 == id && SameLibrary(t, one.value.0) && TablesOk(one.value.0)
            && one.value.0.edits == EditsAgain(digest, u, e, id)
  {
    PresentInSame(digest, t, u, e, id);
    ItemAgain(digest, u, e, id, now, disk);
    ResolvedIsEdition(digest, u, id, Text(e.item.job));
    var edits := EditsAgain(digest, u, e, id);
    MarkIsSame(u, id, edits);
    SameOn(t, u, Mark(u, id, "").(edits := edits));
  }

  lemma LastAgain(digest: Digest, t: Tables, es: seq<Entry>, ids: seq<ItemId>, v: Tables)
    requires |ids| == |es| != 0 && AllPresent(digest, t, es, ids) && SameLibrary(t, v)
    requires EditsAdded(digest, t, es[..|es| - 1], ids[..|es| - 1], v.edits)
    requires Filled(digest, v, es[|es| - 1], ids[|es| - 1])
    ensures EditsAdded(digest, t, es, ids, EditsAgain(digest, v, es[|es| - 1], ids[|es| - 1]))
  {
    var n := |es| - 1;
    SameResolve(digest, t, v, es[n], ids[n]);
    LastEdit(digest, t, es, ids, v.edits, EditsAgain(digest, v, es[n], ids[n]));
  }

  lemma SameResolve(digest: Digest, t: Tables, u: Tables, e: Entry, id: ItemId)
    requires SameLibrary(t, u)
    ensures Resolve(digest, t, id, Text(e.item.job)) == Resolve(digest, u, id, Text(e.item.job))
  {
  }

  lemma FrontPresent(digest: Digest, t: Tables, es: seq<Entry>, ids: seq<ItemId>)
    requires |ids| == |es| != 0 && AllPresent(digest, t, es, ids)
    ensures AllPresent(digest, t, es[..|es| - 1], ids[..|es| - 1])
    ensures Present(digest, t, es[|es| - 1], ids[|es| - 1])
  {
    var n := |es| - 1;
    forall k | 0 <= k < n ensures Present(digest, t, es[..n][k], ids[..n][k]) { assert Present(digest, t, es[k], ids[k]); }
  }

  lemma AgainNext(digest: Digest, t: Tables, es: seq<Entry>, ids: seq<ItemId>, v: Tables, now: Time, disk: bool)
    requires TablesOk(t) && |ids| == |es| != 0 && AllPresent(digest, t, es, ids)
    requires SameLibrary(t, v) && TablesOk(v)
    requires EditsAdded(digest, t, es[..|es| - 1], ids[..|es| - 1], v.edits)
    ensures var one := RestoreItem(digest, v, es[|es| - 1], now, disk);
            && one.Ok? && one.value.1 == ids[|es| - 1] && SameLibrary(t, one.value.0) && TablesOk(one.value.0)
            && EditsAdded(digest, t, es, ids, one.value.0.edits)
  {
    FrontPresent(digest, t, es, ids);
    ItemAgainLater(digest, t, v, es[|es| - 1], ids[|es| - 1], now, disk);
    LastAgain(digest, t, es, ids, v);
  }

  lemma FrontAndLast(ids: seq<ItemId>)
    requires ids != []
    ensures ids[..|ids| - 1] + [ids[|ids| - 1]] == ids
  {
  }

  lemma {:induction false} RestoreAgain(digest: Digest, t: Tables, es: seq<Entry>, ids: seq<ItemId>, now: Time,
      disk: nat -> bool)
    requires TablesOk(t) && AllPresent(digest, t, es, ids) && |ids| == |es|
    ensures OnlyMarked(digest, t, es, ids, RestoreAll(digest, t, es, now, disk))
    decreases |es|
  {
    if es != [] {
      var n := |es| - 1;
      FrontPresent(digest, t, es, ids);
      RestoreAgain(digest, t, es[..n], ids[..n], now, disk);
      AgainNext(digest, t, es, ids, RestoreAll(digest, t, es[..n], now, disk).tables, now, disk(n));
      LastOne(digest, t, es, now, disk);
      FrontAndLast(ids);
    }
  }

  // Restoring the same archive twice leaves items, captures, editions, jobs
  // and selections as restoring it once; the edited readings too, exactly if
  // each finds its reading when the second restore looks for it.
  lemma RestoreTwice(digest: Digest, t: Tables, es: seq<Entry>, now: Time, disk: nat -> bool, later: Time,
      disk2: nat -> bool)
    requires TablesOk(t) && DistinctIds(es) && RestoreAll(digest, t, es, now, disk).error.None?
    ensures var once := RestoreAll(digest, t, es, now, disk);
            var twice := RestoreAll(digest, once.tables, es, later, disk2);
            && twice.error.None? && twice.placed == once.placed && |once.placed| == |es|
            && SameLibrary(once.tables, twice.tables) && Extends(once.tables.edits, twice.tables.edits)
            && (twice.tables.edits == once.tables.edits <==>
                  forall k | 0 <= k < |es| :: EditStays(digest, once.tables, es[k], once.placed[k]))
  {
    RestoreAdds(digest, t, es, now, disk);
    var once := RestoreAll(digest, t, es, now, disk);
    RestoreAgain(digest, once.tables, es, once.placed, later, disk2);
  }

  // ----------------------------------------- when no edited reading is added

  lemma PlacedApart(t: Tables, d: Entry, e: Entry, a: ItemId, b: ItemId)
    requires Placed(t, d, a) && Placed(t, e, b) && d.id != e.id
    requires d.item.url == "" || d.item.url != e.item.url
    ensures a != b
  {
  }

  lemma EditStaysOn(digest: Digest, t: Tables, u: Tables, e: Entry, id: ItemId, other: ItemId)
    requires EditStays(digest, t, e, id) && Grows(t, u) && other != id
    requires forall j <- u.editions :: j in t.editions || u.editions[j].item == other
    ensures EditStays(digest, u, e, id)
  {
  }

  lemma EditStaysNew(digest: Digest, t: Tables, e: Entry, now: Time, disk: bool)
    requires TablesOk(t) && RestoreItem(digest, t, e, now, disk).Ok?
    ensures var (u, id) := RestoreItem(digest, t, e, now, disk).value; EditStays(digest, u, e, id)
  {
    var (t0, id) := Place(t, e, now).value;
    PlaceAdds(t, e, now);
    FillAdds(digest, t0, e, id, disk);
    var t1 := RestoreCaptures(t0, id, e.captures, disk).value;
    CapturesGrow(t0, id, e.captures, disk);
    AllEditions(digest, t1, id, e.item, Editions(e), disk);
    if e.edit.Some? {
      OneEdit(digest, RestoreEditions(digest, t1, id, e.item, Editions(e), disk).value.0, id, e.item, e.edit.value);
    }
  }

  ghost predicate AllEditsStay(digest: Digest, t: Tables, es: seq<Entry>, ids: seq<ItemId>) {
    |ids| <= |es| && forall k | 0 <= k < |ids| :: EditStays(digest, t, es[k], ids[k])
  }

  lemma EditsStayOthers(digest: Digest, t: Tables, u: Tables, es: seq<Entry>, ids: seq<ItemId>, id: ItemId)
    requires |es| == |ids| + 1 && DistinctIds(es) && DistinctUrls(es) && Grows(t, u)
    requires AllPresent(digest, u, es, ids + [id])
             && forall j <- u.editions :: j in t.editions || u.editions[j].item == id
    requires AllEditsStay(digest, t, es[..|ids|], ids) && EditStays(digest, u, es[|ids|], id)
    ensures AllEditsStay(digest, u, es, ids + [id])
  {
    var n := |ids|;
    assert Present(digest, u, es[n], (ids + [id])[n]);
    forall k | 0 <= k < n
      ensures EditStays(digest, u, es[k], (ids + [id])[k])
    {
      assert es[..n][k] == es[k] && Present(digest, u, es[k], (ids + [id])[k]);
      PlacedApart(u, es[k], es[n], ids[k], id);
      EditStaysOn(digest, t, u, es[k], ids[k], id);
    }
  }

  lemma EditsStayLast(digest: Digest, t: Tables, es: seq<Entry>, ids: seq<ItemId>, now: Time, disk: bool)
    requires TablesOk(t) && |es| == |ids| + 1 && DistinctIds(es) && DistinctUrls(es)
    requires AllPresent(digest, t, es[..|ids|], ids) && AllEditsStay(digest, t, es[..|ids|], ids)
    requires RestoreItem(digest, t, es[|ids|], now, disk).Ok?
    ensures var (u, id) := RestoreItem(digest, t, es[|ids|], now, disk).value; AllEditsStay(digest, u, es, ids + [id])
  {
    var (u, id) := RestoreItem(digest, t, es[|ids|], now, disk).value;
    ItemAdds(digest, t, es[|ids|], now, disk);
    EditStaysNew(digest, t, es[|ids|], now, disk);
    LastPresent(digest, t, u, es, ids, id);
    EditsStayOthers(digest, t, u, es, ids, id);
  }

  lemma {:induction false} EditsStay(digest: Digest, t: Tables, es: seq<Entry>, now: Time, disk: nat -> bool)
    requires TablesOk(t) && DistinctIds(es) && DistinctUrls(es)
    ensures var r := RestoreAll(digest, t, es, now, disk); AllEditsStay(digest, r.tables, es, r.placed)
    decreases |es|
  {
    if es != [] {
      var n := |es| - 1;
      EditsStay(digest, t, es[..n], now, disk);
      RestoreAdds(digest, t, es[..n], now, disk);
      var r := RestoreAll(digest, t, es[..n], now, disk);
      LastOne(digest, t, es, now, disk);
      if r.error.Some? || RestoreItem(digest, r.tables, es[n], now, disk(n)).Err? {
        MoreEdits(digest, r.tables, es, n, r.placed);
      } else {
        EditsStayLast(digest, r.tables, es, r.placed, now, disk(n));
      }
    }
  }

  lemma MoreEdits(digest: Digest, t: Tables, es: seq<Entry>, n: nat, ids: seq<ItemId>)
    requires n <= |es| && AllEditsStay(digest, t, es[..n], ids)
    ensures AllEditsStay(digest, t, es, ids)
  {
    assert forall k | 0 <= k < |ids| :: es[..n][k] == es[k];
  }

  // Unless two entries share a url, restoring twice changes nothing but marks.
  lemma RestoreTwiceSame(digest: Digest, t: Tables, es: seq<Entry>, now: Time, disk: nat -> bool, later: Time,
      disk2: nat -> bool)
    requires TablesOk(t) && DistinctIds(es) && DistinctUrls(es) && RestoreAll(digest, t, es, now, disk).error.None?
    ensures var once := RestoreAll(digest, t, es, now, disk);
            var twice := RestoreAll(digest, once.tables, es, later, disk2);
            twice.error.None? && SameLibrary(once.tables, twice.tables) && twice.tables.edits == once.tables.edits
  {
    EditsStay(digest, t, es, now, disk);
    RestoreTwice(digest, t, es, now, disk, later, disk2);
  }

  // -------------------------------------------------- interrupted restores

  // From libraries that are the same, completed steps lead to the same.
  lemma {:induction false} CapturesAlike(t: Tables, u: Tables, id: ItemId, cs: seq<ArchivedCapture>, a: bool, b: bool)
    requires SameLibrary(t, u) && RestoreCaptures(t, id, cs, a).Ok? && RestoreCaptures(u, id, cs, b).Ok?
    ensures SameLibrary(RestoreCaptures(t, id, cs, a).value, RestoreCaptures(u, id, cs, b).value)
    decreases |cs|
  {
    if cs != [] { CapturesAlike(t, u, id, cs[..|cs| - 1], a, b); }
  }

  lemma EditionAlike(digest: Digest, t: Tables, u: Tables, id: ItemId, item: Item, d: ArchivedEdition, a: bool, b: bool)
    requires SameLibrary(t, u) && RestoreEdition(digest, t, id, item, d, a).Ok?
             && RestoreEdition(digest, u, id, item, d, b).Ok?
    ensures var (v, j) := RestoreEdition(digest, t, id, item, d, a).value;
            var (w, k) := RestoreEdition(digest, u, id, item, d, b).value;
            SameLibrary(v, w) && j == k
  {
  }

  lemma {:induction false} EditionsAlike(digest: Digest, t: Tables, u: Tables, id: ItemId, item: Item,
      ds: seq<ArchivedEdition>, a: bool, b: bool)
    requires SameLibrary(t, u)
    requires RestoreEditions(digest, t, id, item, ds, a).Ok? && RestoreEditions(digest, u, id, item, ds, b).Ok?
    ensures var (v, j) := RestoreEditions(digest, t, id, item, ds, a).value;
            var (w, k) := RestoreEditions(digest, u, id, item, ds, b).value;
            SameLibrary(v, w) && j == k
    decreases |ds|
  {
    if ds != [] {
      var front, d := ds[..|ds| - 1], ds[|ds| - 1];
      EditionsAlike(digest, t, u, id, item, front, a, b);
      var (v, _) := RestoreEditions(digest, t, id, item, front, a).value;
      var (w, _) := RestoreEditions(digest, u, id, item, front, b).value;
      EditionAlike(digest, v, w, id, item, d, a, b);
    }
  }

  lemma AddAlike(t: Tables, u: Tables, id: ItemId, job: string, language: string, row: JobRow)
    requires SameLibrary(t, u) && AddEdition(t, id, job, language, row).Ok? && AddEdition(u, id, job, language, row).Ok?
    ensures var v, w := AddEdition(t, id, job, language, row).value, AddEdition(u, id, job, language, row).value;
            SameLibrary(v, w) && v.edits == t.edits && w.edits == u.edits
  {
  }

  lemma EditsAside(t: Tables, u: Tables, a: map<string, string>, b: map<string, string>)
    requires SameLibrary(t, u)
    ensures SameLibrary(t.(edits := a), u.(edits := b))
  {
  }

  lemma EditAlike(digest: Digest, t: Tables, u: Tables, id: ItemId, item: Item, edit: ArchivedEdit)
    requires SameLibrary(t, u) && RestoreEdit(digest, t, id, item, edit).Ok?
             && RestoreEdit(digest, u, id, item, edit).Ok?
    ensures var (v, j) := RestoreEdit(digest, t, id, item, edit).value;
            var (w, k) := RestoreEdit(digest, u, id, item, edit).value;
            SameLibrary(v, w) && j == k
  {
    var known, job := Resolve(digest, t, id, Text(item.job)), RestoredId(digest, id, Text(item.job));
    assert Resolve(digest, u, id, Text(item.job)) == known;
    if known.Some? {
      EditsAside(t, u, KeepOr(t.edits, known.value, edit.draft), KeepOr(u.edits, known.value, edit.draft));
    } else {
      var row := JobRow(item.url, item.title, false);
      AddAlike(t, u, id, job, edit.language, row);
      EditsAside(AddEdition(t, id, job, edit.language, row).value, AddEdition(u, id, job, edit.language, row).value,
                 KeepOr(t.edits, job, edit.draft), KeepOr(u.edits, job, edit.draft));
    }
  }

  lemma FillAlike(digest: Digest, t: Tables, u: Tables, e: Entry, id: ItemId, a: bool, b: bool)
    requires SameLibrary(t, u) && Fill(digest, t, e, id, a).Ok? && Fill(digest, u, e, id, b).Ok?
    ensures var (v, j) := Fill(digest, t, e, id, a).value;
            var (w, k) := Fill(digest, u, e, id, b).value;
            SameLibrary(v, w) && j == k
  {
    CapturesAlike(t, u, id, e.captures, a, b);
    var t1, u1 := RestoreCaptures(t, id, e.captures, a).value, RestoreCaptures(u, id, e.captures, b).value;
    EditionsAlike(digest, t1, u1, id, e.item, Editions(e), a, b);
    if e.edit.Some? {
      var t2 := RestoreEditions(digest, t1, id, e.item, Editions(e), a).value.0;
      var u2 := RestoreEditions(digest, u1, id, e.item, Editions(e), b).value.0;
      EditAlike(digest, t2, u2, id, e.item, e.edit.value);
    }
  }

  lemma InsertAlike(t: Tables, u: Tables, id: ItemId, a: Item, b: Item)
    requires SameLibrary(t, u) && SameItem(a, b)
    ensures SameLibrary(t.(items := t.items[id := a]), u.(items := u.items[id := b]))
  {
  }

  lemma PlaceAlike(t: Tables, u: Tables, e: Entry, now: Time, later: Time)
    requires SameLibrary(t, u) && TablesOk(t) && TablesOk(u) && Place(t, e, now).Ok? && Place(u, e, later).Ok?
    ensures var (v, i) := Place(t, e, now).value;
            var (w, j) := Place(u, e, later).value;
            SameLibrary(v, w) && i == j
  {
    FindSame(t, u, e.id, e.item.url);
    InsertAlike(t, u, e.id, NewRow(e.item, now), NewRow(e.item, later));
  }

  lemma ItemAlike(digest: Digest, t: Tables, u: Tables, e: Entry, now: Time, later: Time, a: bool, b: bool)
    requires SameLibrary(t, u) && TablesOk(t) && TablesOk(u)
    requires RestoreItem(digest, t, e, now, a).Ok? && RestoreItem(digest, u, e, later, b).Ok?
    ensures var (v, i) := RestoreItem(digest, t, e, now, a).value;
            var (w, j) := RestoreItem(digest, u, e, later, b).value;
            SameLibrary(v, w) && i == j
  {
    PlaceAlike(t, u, e, now, later);
    var (t0, id) := Place(t, e, now).value;
    var (u0, _) := Place(u, e, later).value;
    FillAlike(digest, t0, u0, e, id, a, b);
    var (t1, selected) := Fill(digest, t0, e, id, a).value;
    var (u1, _) := Fill(digest, u0, e, id, b).value;
    assert SameItem(Restored(t1.items[id], selected), Restored(u1.items[id], selected));
  }

  // Two completed restores compared: the same library, each item where it was.
  ghost predicate Alike(a: Run, b: Run) {
    a.error.None? && b.error.None? && a.placed == b.placed && SameLibrary(a.tables, b.tables)
  }

  lemma LastAlike(digest: Digest, r: Run, q: Run, t: Tables, u: Tables, es: seq<Entry>, now: Time, later: Time,
      a: nat -> bool, b: nat -> bool)
    requires es != [] && TablesOk(r.tables) && TablesOk(q.tables) && Alike(r, q)
    requires r == RestoreAll(digest, t, es[..|es| - 1], now, a) && q == RestoreAll(digest, u, es[..|es| - 1], later, b)
    requires RestoreAll(digest, t, es, now, a).error.None? && RestoreAll(digest, u, es, later, b).error.None?
    ensures Alike(RestoreAll(digest, t, es, now, a), RestoreAll(digest, u, es, later, b))
  {
    var n := |es| - 1;
    LastOne(digest, t, es, now, a);
    LastOne(digest, u, es, later, b);
    ItemAlike(digest, r.tables, q.tables, es[n], now, later, a(n), b(n));
  }

  lemma {:induction false} RestoresAlike(digest: Digest, t: Tables, u: Tables, es: seq<Entry>, now: Time, later: Time,
      a: nat -> bool, b: nat -> bool)
    requires SameLibrary(t, u) && TablesOk(t) && TablesOk(u) && DistinctIds(es)
    requires RestoreAll(digest, t, es, now, a).error.None? && RestoreAll(digest, u, es, later, b).error.None?
    ensures Alike(RestoreAll(digest, t, es, now, a), RestoreAll(digest, u, es, later, b))
    decreases |es|
  {
    if es != [] {
      var front := es[..|es| - 1];
      LastOne(digest, t, es, now, a);
      LastOne(digest, u, es, later, b);
      RestoresAlike(digest, t, u, front, now, later, a, b);
      RestoreAdds(digest, t, front, now, a);
      RestoreAdds(digest, u, front, later, b);
      LastAlike(digest, RestoreAll(digest, t, front, now, a), RestoreAll(digest, u, front, later, b), t, u, es, now, later, a, b);
    }
  }

  lemma RepeatedAlike(digest: Digest, t: Tables, es: seq<Entry>, once: Run, now: Time, later: Time, again: Time,
    a: nat -> bool, b: nat -> bool, c: nat -> bool)
    requires TablesOk(t) && DistinctIds(es) && once == RestoreAll(digest, t, es, now, a) && once.error.None?
    requires RestoreAll(digest, t, es, again, c).error.None?
    ensures Alike(RestoreAll(digest, once.tables, es, later, b), RestoreAll(digest, t, es, again, c))
  {
    RestoreTwice(digest, t, es, now, a, later, b);
    var twice := RestoreAll(digest, once.tables, es, later, b);
    assert SameLibrary(t, t);
    RestoresAlike(digest, t, t, es, now, again, a, c);
    SameOn(once.tables, twice.tables, twice.tables);
    SameOn(twice.tables, once.tables, RestoreAll(digest, t, es, again, c).tables);
  }

  // A restore interrupted after any number of entries and then repeated comes
  // to the same library as one that was not interrupted.
  lemma {:induction false} ResumedAlike(digest: Digest, t: Tables, es: seq<Entry>, k: nat, cut: Run, now: Time,
      later: Time, again: Time, a: nat -> bool, b: nat -> bool, c: nat -> bool)
    requires TablesOk(t) && DistinctIds(es) && k <= |es|
    requires cut == RestoreAll(digest, t, es[..k], now, a) && cut.error.None?
    requires RestoreAll(digest, cut.tables, es, later, b).error.None? && RestoreAll(digest, t, es, again, c).error.None?
    ensures Alike(RestoreAll(digest, cut.tables, es, later, b), RestoreAll(digest, t, es, again, c))
    decreases |es|
  {
    FrontDistinct(es, k);
    RestoreAdds(digest, t, es[..k], now, a);
    if k == |es| {
      assert es[..k] == es;
      RepeatedAlike(digest, t, es, cut, now, later, again, a, b, c);
    } else {
      var front := es[..|es| - 1];
      assert front[..k] == es[..k];
      FrontDistinct(es, |es| - 1);
      LastOne(digest, cut.tables, es, later, b);
      LastOne(digest, t, es, again, c);
      ResumedAlike(digest, t, front, k, cut, now, later, again, a, b, c);
      RestoreAdds(digest, cut.tables, front, later, b);
      RestoreAdds(digest, t, front, again, c);
      LastAlike(digest, RestoreAll(digest, cut.tables, front, later, b), RestoreAll(digest, t, front, again, c),
                cut.tables, t, es, later, again, b, c);
    }
  }

  // ------------------------------------ edited readings of interrupted restores

  // The readings of `base`, and of `a` where `base` has none.
  ghost predicate Overlaid(base: map<string, string>, a: map<string, string>, b: map<string, string>) {
    && b.Keys == base.Keys + a.Keys
    && forall j <- b :: b[j] == if j in base then base[j] else a[j]
  }

  lemma EqualIfCovered(base: map<string, string>, a: map<string, string>, b: map<string, string>)
    requires Overlaid(base, a, b)
    ensures a == b <==> Extends(base, a)
  {
  }

  lemma KeepOverlaid(base: map<string, string>, a: map<string, string>, b: map<string, string>, job: string,
      draft: string)
    requires Overlaid(base, a, b)
    ensures Overlaid(base, KeepOr(a, job, draft), KeepOr(b, job, draft))
  {
  }

  lemma EditOverlaid(digest: Digest, t: Tables, u: Tables, id: ItemId, item: Item, edit: ArchivedEdit,
      base: map<string, string>)
    requires SameLibrary(t, u) && RestoreEdit(digest, t, id, item, edit).Ok?
             && RestoreEdit(digest, u, id, item, edit).Ok?
    requires Overlaid(base, t.edits, u.edits)
    ensures Overlaid(base, RestoreEdit(digest, t, id, item, edit).value.0.edits,
                     RestoreEdit(digest, u, id, item, edit).value.0.edits)
  {
    var (v, job) := RestoreEdit(digest, t, id, item, edit).value;
    EditAlike(digest, t, u, id, item, edit);
    KeepOverlaid(base, t.edits, u.edits, job, edit.draft);
  }

  lemma FillOverlaid(digest: Digest, t: Tables, u: Tables, e: Entry, id: ItemId, a: bool, b: bool,
      base: map<string, string>)
    requires SameLibrary(t, u) && TablesOk(t) && TablesOk(u)
    requires Fill(digest, t, e, id, a).Ok? && Fill(digest, u, e, id, b).Ok? && Overlaid(base, t.edits, u.edits)
    ensures Overlaid(base, Fill(digest, t, e, id, a).value.0.edits, Fill(digest, u, e, id, b).value.0.edits)
  {
    var t1, u1 := RestoreCaptures(t, id, e.captures, a).value, RestoreCaptures(u, id, e.captures, b).value;
    CapturesGrow(t, id, e.captures, a);
    CapturesGrow(u, id, e.captures, b);
    CapturesAlike(t, u, id, e.captures, a, b);
    AllEditions(digest, t1, id, e.item, Editions(e), a);
    AllEditions(digest, u1, id, e.item, Editions(e), b);
    EditionsAlike(digest, t1, u1, id, e.item, Editions(e), a, b);
    if e.edit.Some? {
      var t2 := RestoreEditions(digest, t1, id, e.item, Editions(e), a).value.0;
      var u2 := RestoreEditions(digest, u1, id, e.item, Editions(e), b).value.0;
      EditOverlaid(digest, t2, u2, id, e.item, e.edit.value, base);
    }
  }

  lemma FilledEdits(digest: Digest, t: Tables, e: Entry, now: Time, disk: bool)
    requires RestoreItem(digest, t, e, now, disk).Ok?
    ensures var (t0, id) := Place(t, e, now).value;
            && Fill(digest, t0, e, id, disk).Ok?
            && RestoreItem(digest, t, e, now, disk).value.0.edits == Fill(digest, t0, e, id, disk).value.0.edits
  {
  }

  lemma ItemOverlaid(digest: Digest, t: Tables, u: Tables, e: Entry, now: Time, later: Time, a: bool, b: bool,
      base: map<string, string>)
    requires SameLibrary(t, u) && TablesOk(t) && TablesOk(u) && Overlaid(base, t.edits, u.edits)
    requires RestoreItem(digest, t, e, now, a).Ok? && RestoreItem(digest, u, e, later, b).Ok?
    ensures Overlaid(base, RestoreItem(digest, t, e, now, a).value.0.edits,
                     RestoreItem(digest, u, e, later, b).value.0.edits)
  {
    var (t0, id) := Place(t, e, now).value;
    var (u0, _) := Place(u, e, later).value;
    PlaceAlike(t, u, e, now, later);
    PlaceAdds(t, e, now);
    PlaceAdds(u, e, later);
    FillOverlaid(digest, t0, u0, e, id, a, b, base);
    FilledEdits(digest, t, e, now, a);
    FilledEdits(digest, u, e, later, b);
  }

  lemma LastOverlaid(digest: Digest, t: Tables, u: Tables, es: seq<Entry>, now: Time, later: Time, a: nat -> bool,
      b: nat -> bool, base: map<string, string>)
    requires TablesOk(t) && TablesOk(u) && DistinctIds(es) && es != []
    requires RestoreAll(digest, t, es, now, a).error.None? && RestoreAll(digest, u, es, later, b).error.None?
    requires var front := es[..|es| - 1];
             && Alike(RestoreAll(digest, t, front, now, a), RestoreAll(digest, u, front, later, b))
             && Overlaid(base, RestoreAll(digest, t, front, now, a).tables.edits,
                         RestoreAll(digest, u, front, later, b).tables.edits)
    ensures Overlaid(base, RestoreAll(digest, t, es, now, a).tables.edits,
                     RestoreAll(digest, u, es, later, b).tables.edits)
  {
    var n := |es| - 1;
    LastOne(digest, t, es, now, a);
    LastOne(digest, u, es, later, b);
    FrontDistinct(es, n);
    RestoreAdds(digest, t, es[..n], now, a);
    RestoreAdds(digest, u, es[..n], later, b);
    ItemOverlaid(digest, RestoreAll(digest, t, es[..n], now, a).tables, RestoreAll(digest, u, es[..n], later, b).tables,
                 es[n], now, later, a(n), b(n), base);
  }

  // Two restores of one library add the same edited readings.
  lemma {:induction false} SameReadings(digest: Digest, t: Tables, es: seq<Entry>, now: Time, later: Time,
      a: nat -> bool, b: nat -> bool)
    requires TablesOk(t) && DistinctIds(es)
    requires RestoreAll(digest, t, es, now, a).error.None? && RestoreAll(digest, t, es, later, b).error.None?
    ensures Overlaid(t.edits, RestoreAll(digest, t, es, now, a).tables.edits,
                     RestoreAll(digest, t, es, later, b).tables.edits)
    ensures RestoreAll(digest, t, es, now, a).tables.edits == RestoreAll(digest, t, es, later, b).tables.edits
    decreases |es|
  {
    RestoreAdds(digest, t, es, now, a);
    if es != [] {
      var front := es[..|es| - 1];
      LastOne(digest, t, es, now, a);
      LastOne(digest, t, es, later, b);
      FrontDistinct(es, |es| - 1);
      SameReadings(digest, t, front, now, later, a, b);
      RestoresAlike(digest, t, t, front, now, later, a, b);
      LastOverlaid(digest, t, t, es, now, later, a, b, t.edits);
    }
    EqualIfCovered(t.edits, RestoreAll(digest, t, es, now, a).tables.edits, RestoreAll(digest, t, es, later, b).tables.edits);
  }

  lemma AlikeBack(a: Run, b: Run)
    requires Alike(a, b)
    ensures Alike(b, a)
  {
    SameOn(a.tables, b.tables, b.tables);
  }

  lemma RepeatedOverlaid(digest: Digest, t: Tables, es: seq<Entry>, cut: Run, now: Time, later: Time, again: Time,
      a: nat -> bool, b: nat -> bool, c: nat -> bool)
    requires TablesOk(t) && DistinctIds(es) && cut == RestoreAll(digest, t, es, now, a) && cut.error.None?
    requires RestoreAll(digest, t, es, again, c).error.None?
    ensures var repeated := RestoreAll(digest, cut.tables, es, later, b).tables.edits;
            Overlaid(repeated, RestoreAll(digest, t, es, again, c).tables.edits, repeated)
  {
    SameReadings(digest, t, es, now, again, a, c);
    RestoreTwice(digest, t, es, now, a, later, b);
  }

  // Repeated from a cut, a restore ends with the readings that repeating the
  // restored entries left, and with those of the uninterrupted one.
  lemma {:induction false} ResumedOverlaid(digest: Digest, t: Tables, es: seq<Entry>, k: nat, cut: Run, now: Time,
      later: Time, again: Time, a: nat -> bool, b: nat -> bool, c: nat -> bool)
    requires TablesOk(t) && DistinctIds(es) && k <= |es|
    requires cut == RestoreAll(digest, t, es[..k], now, a) && cut.error.None?
    requires RestoreAll(digest, cut.tables, es, later, b).error.None? && RestoreAll(digest, t, es, again, c).error.None?
    ensures Overlaid(RestoreAll(digest, cut.tables, es[..k], later, b).tables.edits,
                     RestoreAll(digest, t, es, again, c).tables.edits,
                     RestoreAll(digest, cut.tables, es, later, b).tables.edits)
    decreases |es|
  {
    if k == |es| {
      assert es[..k] == es;
      RepeatedOverlaid(digest, t, es, cut, now, later, again, a, b, c);
    } else {
      var front := es[..|es| - 1];
      assert front[..k] == es[..k];
      FrontDistinct(es, k);
      FrontDistinct(es, |es| - 1);
      RestoreAdds(digest, t, es[..k], now, a);
      LastOne(digest, cut.tables, es, later, b);
      LastOne(digest, t, es, again, c);
      ResumedOverlaid(digest, t, front, k, cut, now, later, again, a, b, c);
      ResumedAlike(digest, t, front, k, cut, now, later, again, a, b, c);
      AlikeBack(RestoreAll(digest, cut.tables, front, later, b), RestoreAll(digest, t, front, again, c));
      LastOverlaid(digest, t, cut.tables, es, again, later, c, b,
                   RestoreAll(digest, cut.tables, es[..k], later, b).tables.edits);
    }
  }

  // The edited readings are those of an uninterrupted restore exactly if that
  // one has every reading that repeating the restored entries left.
  lemma ResumedReadings(digest: Digest, t: Tables, es: seq<Entry>, k: nat, cut: Run, now: Time, later: Time,
      again: Time, a: nat -> bool, b: nat -> bool, c: nat -> bool)
    requires TablesOk(t) && DistinctIds(es) && k <= |es|
    requires cut == RestoreAll(digest, t, es[..k], now, a) && cut.error.None?
    requires RestoreAll(digest, cut.tables, es, later, b).error.None? && RestoreAll(digest, t, es, again, c).error.None?
    ensures var resumed := RestoreAll(digest, cut.tables, es, later, b).tables.edits;
            var whole := RestoreAll(digest, t, es, again, c).tables.edits;
            resumed == whole <==> Extends(RestoreAll(digest, cut.tables, es[..k], later, b).tables.edits, whole)
  {
    ResumedOverlaid(digest, t, es, k, cut, now, later, again, a, b, c);
    EqualIfCovered(RestoreAll(digest, cut.tables, es[..k], later, b).tables.edits,
                   RestoreAll(digest, t, es, again, c).tables.edits,
                   RestoreAll(digest, cut.tables, es, later, b).tables.edits);
  }

  lemma {:induction false} ReadingsKept(digest: Digest, t: Tables, es: seq<Entry>, k: nat, now: Time, disk: nat -> bool)
    requires TablesOk(t) && DistinctIds(es) && k <= |es| && RestoreAll(digest, t, es, now, disk).error.None?
    ensures RestoreAll(digest, t, es[..k], now, disk).error.None?
    ensures Extends(RestoreAll(digest, t, es[..k], now, disk).tables.edits, RestoreAll(digest, t, es, now, disk).tables.edits)
    decreases |es|
  {
    if k == |es| {
      assert es[..k] == es;
    } else {
      var front := es[..|es| - 1];
      assert front[..k] == es[..k];
      LastOne(digest, t, es, now, disk);
      FrontDistinct(es, |es| - 1);
      RestoreAdds(digest, t, front, now, disk);
      ReadingsKept(digest, t, front, k, now, disk);
      ItemAdds(digest, RestoreAll(digest, t, front, now, disk).tables, es[|es| - 1], now, disk(|es| - 1));
    }
  }

  // Unless two entries share a url, an interrupted and repeated restore comes
  // to the library of an uninterrupted one, with its edited readings.
  lemma ResumedSame(digest: Digest, t: Tables, es: seq<Entry>, k: nat, cut: Run, now: Time, later: Time,
      again: Time, a: nat -> bool, b: nat -> bool, c: nat -> bool)
    requires TablesOk(t) && DistinctIds(es) && DistinctUrls(es) && k <= |es|
    requires cut == RestoreAll(digest, t, es[..k], now, a) && cut.error.None?
    requires RestoreAll(digest, cut.tables, es, later, b).error.None? && RestoreAll(digest, t, es, again, c).error.None?
    ensures var resumed, whole := RestoreAll(digest, cut.tables, es, later, b), RestoreAll(digest, t, es, again, c);
            Alike(resumed, whole) && resumed.tables.edits == whole.tables.edits
  {
    ResumedAlike(digest, t, es, k, cut, now, later, again, a, b, c);
    FrontDistinct(es, k);
    assert DistinctUrls(es[..k]);
    ReadingsKept(digest, t, es, k, again, c);
    SameReadings(digest, t, es[..k], now, again, a, c);
    RestoreTwiceSame(digest, t, es[..k], now, a, later, b);
    ResumedReadings(digest, t, es, k, cut, now, later, again, a, b, c);
  }

  // Two entries share a url, and the job of the first one's edited reading is
  // the identity under which the second one's edition `a` is restored.
  function SharedUrl(digest: Digest, a: string): seq<Entry> {
    var i := NewBookmark("u", "", "", [], 0, 0);
    [Entry("i", i.(job := Some(RestoredId(digest, "i", a))), [], [], None, None, Some(ArchivedEdit("draft", ""))),
     Entry("k", i, [], [ArchivedEdition(a, "", None, true)], None, None, None)]
  }

  // Where that edited reading is restored.
  function ReadingId(digest: Digest, a: string): string {
    RestoredId(digest, "i", RestoredId(digest, "i", a))
  }

  lemma FirstShared(digest: Digest, a: string)
    ensures var y := ReadingId(digest, a);
            var r := RestoreItem(digest, EMPTY, SharedUrl(digest, a)[0], 0, true);
            && r.Ok? && r.value.1 == "i" && r.value.0.items.Keys == {"i"} && r.value.0.items["i"].url == "u"
            && r.value.0.items["i"].kind.Bookmark? && r.value.0.jobs.Keys == {y}
            && r.value.0.editions == map[y := Edition("i", "")] && r.value.0.edits.Keys == {y}
  {
    assert HasUrl(EMPTY.items, "u") == {};
  }

  lemma SecondShared(digest: Digest, a: string, t: Tables)
    requires t.items.Keys == {"i"} && t.items["i"].url == "u" && t.items["i"].kind.Bookmark?
    requires t.jobs.Keys == {ReadingId(digest, a)} && t.editions == map[ReadingId(digest, a) := Edition("i", "")]
    ensures var x, y := RestoredId(digest, "i", a), ReadingId(digest, a);
            var r := RestoreItem(digest, t, SharedUrl(digest, a)[1], 0, true);
            && r.Ok? && r.value.1 == "i" && r.value.0.edits == t.edits
            && r.value.0.editions == if a == y || x == y then t.editions else t.editions[x := Edition("i", "")]
  {
    var e := SharedUrl(digest, a)[1];
    assert "i" in HasUrl(t.items, "u");
    assert Find(t.items, "k", "u") == Some("i");
    OneEditionOnly(digest, t, "i", e.item, e.editions[0]);
    assert Editions(e) == [e.editions[0]];
  }

  lemma OneEditionOnly(digest: Digest, t: Tables, id: ItemId, item: Item, d: ArchivedEdition)
    requires RestoreEdition(digest, t, id, item, d, true).Ok?
    ensures RestoreEditions(digest, t, id, item, [d], true) == RestoreEdition(digest, t, id, item, d, true)
  {
    assert [d][..0] == [];
    assert RestoreEditions(digest, t, id, item, [], true) == Ok((t, ""));
  }

  lemma TwoEntries(digest: Digest, t: Tables, es: seq<Entry>, now: Time, disk: nat -> bool)
    requires |es| == 2 && RestoreItem(digest, t, es[0], now, disk(0)).Ok?
    requires var u := RestoreItem(digest, t, es[0], now, disk(0)).value.0; RestoreItem(digest, u, es[1], now, disk(1)).Ok?
    ensures var (u, i) := RestoreItem(digest, t, es[0], now, disk(0)).value;
            var (v, j) := RestoreItem(digest, u, es[1], now, disk(1)).value;
            RestoreAll(digest, t, es, now, disk) == Run(v, [i, j], None)
  {
    assert es[..1] == [es[0]] && [es[0]][..0] == [];
    var (u, i) := RestoreItem(digest, t, es[0], now, disk(0)).value;
    assert RestoreAll(digest, t, [], now, disk) == Run(t, [], None);
    assert RestoreAll(digest, t, [es[0]], now, disk) == Run(u, [] + [i], None);
  }

  lemma SharedOnce(digest: Digest, a: string, disk: nat -> bool)
    requires disk(0) && disk(1)
    ensures var x, y := RestoredId(digest, "i", a), ReadingId(digest, a);
            var once := RestoreAll(digest, EMPTY, SharedUrl(digest, a), 0, disk);
            && once.error.None? && once.placed == ["i", "i"] && once.tables.edits.Keys == {y}
            && once.tables.editions == if a == y || x == y then map[y := Edition("i", "")]
                                       else map[y := Edition("i", ""), x := Edition("i", "")]
  {
    FirstShared(digest, a);
    SecondShared(digest, a, RestoreItem(digest, EMPTY, SharedUrl(digest, a)[0], 0, true).value.0);
    TwoEntries(digest, EMPTY, SharedUrl(digest, a), 0, disk);
  }

  lemma SharedResolves(digest: Digest, a: string, t: Tables)
    requires var x, y := RestoredId(digest, "i", a), ReadingId(digest, a);
             && t.edits.Keys == {y}
             && t.editions == if a == y || x == y then map[y := Edition("i", "")]
                              else map[y := Edition("i", ""), x := Edition("i", "")]
    ensures EditStays(digest, t, SharedUrl(digest, a)[0], "i")
            <==> !(a != ReadingId(digest, a) && Less(RestoredId(digest, "i", a), ReadingId(digest, a)))
  {
    LessTotal(RestoredId(digest, "i", a), ReadingId(digest, a));
  }

  // Without distinct urls the second restore can add an edited reading,
  // whatever the digest: to this accepted archive it does exactly if the
  // identity given to the edition is before the one given to the reading.
  lemma SharedUrlAddsReading(digest: Digest, a: string, disk: nat -> bool)
    requires disk(0) && disk(1) && a != "" && |a| <= MAX_ID && |RestoredId(digest, "i", a)| <= MAX_ID
    ensures var archive := SharedUrl(digest, a);
            var once := RestoreAll(digest, EMPTY, archive, 0, disk);
            var twice := RestoreAll(digest, once.tables, archive, 0, disk);
            && TablesOk(EMPTY) && ManifestOk(archive) && once.error.None? && twice.error.None?
            && (twice.tables.edits != once.tables.edits
                <==> a != ReadingId(digest, a) && Less(RestoredId(digest, "i", a), ReadingId(digest, a)))
  {
    var archive := SharedUrl(digest, a);
    SharedOnce(digest, a, disk);
    var once := RestoreAll(digest, EMPTY, archive, 0, disk);
    SharedResolves(digest, a, once.tables);
    RestoreTwice(digest, EMPTY, archive, 0, disk, 0, disk);
    assert EditStays(digest, once.tables, archive[1], once.placed[1]);
    assert once.placed[0] == "i";
  }

  // ------------------------------------------------- bookmarks, tombstones

  datatype Link = Link(client: string, node: string, item: Option<ItemId>, url: string, title: string, folder: string)

  type Sources = map<(string, string), Source>

  // The bookmark of a link, under the item its entry was restored to.
  function Linked(l: Link, placed: map<ItemId, ItemId>): Source {
    var item := if l.item.Some? && l.item.value in placed then Some(placed[l.item.value]) else None;
    Source(item, l.url, l.title, l.folder)
  }

  function AddLink(sources: Sources, l: Link, placed: map<ItemId, ItemId>): Sources {
    if (l.client, l.node) in sources then sources else sources[(l.client, l.node) := Linked(l, placed)]
  }

  function AddLinks(sources: Sources, ls: seq<Link>, placed: map<ItemId, ItemId>): Sources
    decreases |ls|
  {
    if ls == [] then sources else AddLink(AddLinks(sources, ls[..|ls| - 1], placed), ls[|ls| - 1], placed)
  }

  // Where the entries were placed, as the links look it up.
  function Mapped(es: seq<Entry>, ids: seq<ItemId>): map<ItemId, ItemId>
    requires |es| == |ids|
    decreases |es|
  {
    if es == [] then map[]
    else Mapped(es[..|es| - 1], ids[..|es| - 1])[es[|es| - 1].id := ids[|es| - 1]]
  }

  lemma {:induction false} LinksAdd(sources: Sources, ls: seq<Link>, placed: map<ItemId, ItemId>)
    ensures Extends(sources, AddLinks(sources, ls, placed))
    ensures forall l <- ls :: (l.client, l.node) in AddLinks(sources, ls, placed)
    decreases |ls|
  {
    if ls != [] {
      LinksAdd(sources, ls[..|ls| - 1], placed);
      assert forall l <- ls :: l in ls[..|ls| - 1] || l == ls[|ls| - 1];
    }
  }

  lemma MappedOn(es: seq<Entry>, ids: seq<ItemId>, k: nat, id: ItemId)
    requires k < |es| && |ids| == k
    ensures Mapped(es[..k + 1], ids + [id]) == Mapped(es[..k], ids)[es[k].id := id]
  {
    assert es[..k + 1][..k] == es[..k] && (ids + [id])[..k] == ids;
  }

  // A mapped identifier leads to where its entry was placed.
  lemma {:induction false} MappedAt(es: seq<Entry>, ids: seq<ItemId>, k: nat)
    requires DistinctIds(es) && |es| == |ids| && k < |es|
    ensures es[k].id in Mapped(es, ids) && Mapped(es, ids)[es[k].id] == ids[k]
    decreases |es|
  {
    var n := |es| - 1;
    if k < n {
      assert DistinctIds(es[..n]);
      MappedAt(es[..n], ids[..n], k);
    }
  }

  // The first link with this key.
  ghost predicate FirstWith(ls: seq<Link>, i: nat, key: (string, string)) {
    i < |ls| && (ls[i].client, ls[i].node) == key
    && forall j | 0 <= j < i :: (ls[j].client, ls[j].node) != key
  }

  // The bookmark has the link's url, title and folder, and is filed under where
  // the link's item was placed, or under none.
  predicate IsOf(s: Source, l: Link, placed: map<ItemId, ItemId>) {
    && s.url == l.url && s.title == l.title && s.folder == l.folder
    && s.item == if l.item.Some? && l.item.value in placed then Some(placed[l.item.value]) else None
  }

  // What the links before the last one did not add comes from the last one.
  lemma LastIsFirst(sources: Sources, ls: seq<Link>, placed: map<ItemId, ItemId>, key: (string, string))
    requires ls != [] && key !in AddLinks(sources, ls[..|ls| - 1], placed) && key in AddLinks(sources, ls, placed)
    ensures FirstWith(ls, |ls| - 1, key)
  {
    var n := |ls| - 1;
    LinksAdd(sources, ls[..n], placed);
    assert forall j | 0 <= j < n :: ls[j] == ls[..n][j] && ls[..n][j] in ls[..n];
  }

  // A new bookmark is that of the first link with its client and node.
  lemma {:induction false} NewLinks(sources: Sources, ls: seq<Link>, placed: map<ItemId, ItemId>,
      key: (string, string))
    requires key in AddLinks(sources, ls, placed) && key !in sources
    ensures exists i: nat :: FirstWith(ls, i, key) && IsOf(AddLinks(sources, ls, placed)[key], ls[i], placed)
    decreases |ls|
  {
    var n := |ls| - 1;
    if key in AddLinks(sources, ls[..n], placed) {
      NewLinks(sources, ls[..n], placed, key);
      var i: nat :| FirstWith(ls[..n], i, key) && IsOf(AddLinks(sources, ls[..n], placed)[key], ls[..n][i], placed);
      assert FirstWith(ls, i, key);
    } else {
      LastIsFirst(sources, ls, placed, key);
    }
  }

  // Bookmarks that are there are left as they are, by the same restore too.
  lemma {:induction false} LinksAgain(sources: Sources, ls: seq<Link>, placed: map<ItemId, ItemId>)
    requires forall l <- ls :: (l.client, l.node) in sources
    ensures AddLinks(sources, ls, placed) == sources
    decreases |ls|
  {
    if ls != [] { LinksAgain(sources, ls[..|ls| - 1], placed); }
  }

  lemma LinksTwice(sources: Sources, ls: seq<Link>, placed: map<ItemId, ItemId>, placed2: map<ItemId, ItemId>)
    ensures AddLinks(AddLinks(sources, ls, placed), ls, placed2) == AddLinks(sources, ls, placed)
  {
    LinksAdd(sources, ls, placed);
    LinksAgain(AddLinks(sources, ls, placed), ls, placed2);
  }

  // --------------------------------------------------------- the manifest

  const MAX_ID := 200

  predicate EntryOk(e: Entry) {
    && e.id != "" && |e.id| <= MAX_ID
    && (e.edit.Some? ==> Text(e.item.job) != "" && |Text(e.item.job)| <= MAX_ID)
    && (forall c <- e.captures :: c.id != "" && |c.id| <= MAX_ID)
    && (forall d <- e.editions :: d.job != "" && |d.job| <= MAX_ID)
    && forall i, j | 0 <= i < j < |e.editions| :: e.editions[i].job != e.editions[j].job
  }

  // Identifiers are present and no longer than 200 characters, an edited reading
  // needs its job, and no edition comes twice.
  lemma EntryOkExactly(e: Entry)
    ensures EntryOk(e) <==>
              && 0 < |e.id| <= 200 && (e.edit.Some? ==> 0 < |Text(e.item.job)| <= 200)
              && (forall k | 0 <= k < |e.captures| :: 0 < |e.captures[k].id| <= 200)
              && (forall k | 0 <= k < |e.editions| :: 0 < |e.editions[k].job| <= 200)
              && forall i, j | 0 <= i < |e.editions| && 0 <= j < |e.editions| && i != j :: e.editions[i].job != e.editions[j].job
  {
    if EntryOk(e) {
      assert forall k | 0 <= k < |e.captures| :: e.captures[k] in e.captures;
      assert forall k | 0 <= k < |e.editions| :: e.editions[k] in e.editions;
    }
  }

  predicate ManifestOk(es: seq<Entry>) {
    DistinctIds(es) && forall e <- es :: EntryOk(e)
  }

  method CheckManifest(es: seq<Entry>) returns (ok: bool)
    ensures ok <==> ManifestOk(es)
  {
    var seen: set<ItemId> := {};
    for k := 0 to |es|
      invariant forall i | 0 <= i < k :: EntryOk(es[i]) && es[i].id in seen
      invariant forall id <- seen :: exists i :: 0 <= i < k && es[i].id == id
      invariant DistinctIds(es[..k])
    {
      if es[k].id in seen {
        ghost var i :| 0 <= i < k && es[i].id == es[k].id;
        return false;
      }
      if !EntryOk(es[k]) { return false; }
      seen := seen + {es[k].id};
    }
    assert es[..|es|] == es;
    return true;
  }

  // An error ends the loop it occurs in.
  lemma {:induction false} CapturesStop(t: Tables, id: ItemId, cs: seq<ArchivedCapture>, k: nat, disk: bool)
    requires k <= |cs| && RestoreCaptures(t, id, cs[..k], disk).Err?
    ensures RestoreCaptures(t, id, cs, disk) == RestoreCaptures(t, id, cs[..k], disk)
    decreases |cs|
  {
    if k < |cs| {
      assert cs[..|cs| - 1][..k] == cs[..k];
      CapturesStop(t, id, cs[..|cs| - 1], k, disk);
    } else {
      assert cs[..k] == cs;
    }
  }

  lemma {:induction false} EditionsStop(digest: Digest, t: Tables, id: ItemId, item: Item, ds: seq<ArchivedEdition>,
      k: nat, disk: bool)
    requires k <= |ds| && RestoreEditions(digest, t, id, item, ds[..k], disk).Err?
    ensures RestoreEditions(digest, t, id, item, ds, disk) == RestoreEditions(digest, t, id, item, ds[..k], disk)
    decreases |ds|
  {
    if k < |ds| {
      assert ds[..|ds| - 1][..k] == ds[..k];
      EditionsStop(digest, t, id, item, ds[..|ds| - 1], k, disk);
    } else {
      assert ds[..k] == ds;
    }
  }

  lemma {:induction false} RestoreStops(digest: Digest, t: Tables, es: seq<Entry>, k: nat, now: Time, disk: nat -> bool)
    requires k <= |es| && RestoreAll(digest, t, es[..k], now, disk).error.Some?
    ensures RestoreAll(digest, t, es, now, disk) == RestoreAll(digest, t, es[..k], now, disk)
    decreases |es|
  {
    if k < |es| {
      assert es[..|es| - 1][..k] == es[..k];
      RestoreStops(digest, t, es[..|es| - 1], k, now, disk);
    } else {
      assert es[..k] == es;
    }
  }
}
