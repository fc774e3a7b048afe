/** Listing jobs page by page, newest first, with a cursor between pages. */
module Pagination {
  import opened Domain
  import opened Ordering
  import opened JobStore
  import opened Base64
  import opened Decimal

  // 1970-01-01 counted from the zero time.
  const UNIX_EPOCH: nat := 62_135_596_800_000_000_000

  datatype Position = Position(createdAt: Time, id: JobId)

  // -------------------------------------------------------------- cursors

  function Nanos(t: Time): int {
    Wrap64(t as int - UNIX_EPOCH)
  }

  function EncodeCursor(p: Position): string
    requires IsBytes(p.id)
  {
    Payload(p);
    Encode(URL_SAFE, Format(Nanos(p.createdAt)) + ":" + p.id)
  }

  lemma Payload(p: Position)
    requires IsBytes(p.id)
    ensures IsBytes(Format(Nanos(p.createdAt)) + ":" + p.id)
  {
    FormatParses(Nanos(p.createdAt));
  }

  // Splits at the first colon.
  function Split(s: string): Option<(string, string)>
    decreases |s|
  {
    if s == "" then None
    else if s[0] == ':' then Some(("", s[1..]))
    else
      var rest := Split(s[1..]);
      if rest.None? then None else Some(([s[0]] + rest.value.0, rest.value.1))
  }

  // A position before the zero time comes back as a negative time.
  function DecodeCursor(cursor: string): Option<(int, JobId)> {
    var payload := Decode(URL_SAFE, cursor, false);
    if payload.None? then None
    else
      var parts := Split(payload.value);
      if parts.None? || parts.value.1 == "" then None
      else
        var nanos := Parse(parts.value.0);
        if nanos.None? then None else Some((nanos.value + UNIX_EPOCH, parts.value.1))
  }

  lemma {:induction false} SplitBack(a: string, b: string)
    requires forall i | 0 <= i < |a| :: a[i] != ':'
    ensures Split(a + ":" + b) == Some((a, b))
    decreases |a|
  {
    if a == "" {
      assert a + ":" + b == ":" + b && (":" + b)[1..] == b;
    } else {
      SplitBack(a[1..], b);
      assert (a + ":" + b)[0] == a[0] && (a + ":" + b)[1..] == a[1..] + ":" + b;
      assert [a[0]] + a[1..] == a;
    }
  }

  // The time a cursor can carry: 64 bits of nanoseconds around 1970.
  predicate Carried(p: Position) {
    p.id != "" && In64(p.createdAt as int - UNIX_EPOCH)
  }

  lemma DecodePayload(cursor: string, n: int, id: JobId)
    requires In64(n) && Decode(URL_SAFE, cursor, false) == Some(Format(n) + ":" + id)
    ensures DecodeCursor(cursor) == if id == "" then None else Some((n + UNIX_EPOCH, id))
  {
    FormatParses(n);
    SplitBack(Format(n), id);
  }

  lemma EncodedDecodes(payload: string)
    requires IsBytes(payload) && payload != ""
    ensures Encode(URL_SAFE, payload) != "" && Decode(URL_SAFE, Encode(URL_SAFE, payload), false) == Some(payload)
  {
    RoundTrip(URL_SAFE, payload, false);
    DigitsBack(URL_SAFE, payload, false);
  }

  lemma DecodeEncode(p: Position)
    requires IsBytes(p.id)
    ensures DecodeCursor(EncodeCursor(p)) == if p.id == "" then None else Some((Nanos(p.createdAt) + UNIX_EPOCH, p.id))
    ensures EncodeCursor(p) != ""
  {
    var n := Nanos(p.createdAt);
    WrapKeeps(p.createdAt as int - UNIX_EPOCH);
    Payload(p);
    EncodedDecodes(Format(n) + ":" + p.id);
    DecodePayload(EncodeCursor(p), n, p.id);
  }

  // A cursor gives back its position exactly if that has an identifier and a
  // time within the range.
  lemma CursorRoundTrip(p: Position)
    requires IsBytes(p.id)
    ensures DecodeCursor(EncodeCursor(p)) == Some((p.createdAt as int, p.id)) <==> Carried(p)
  {
    DecodeEncode(p);
    WrapKeeps(p.createdAt as int - UNIX_EPOCH);
  }

  // ---------------------------------------------------------------- pages

  predicate Older(t: int, a: JobId, u: int, b: JobId) {
    t < u || (t == u && Less(a, b))
  }

  predicate Matches(j: Job, status: Option<Status>) {
    status.None? || j.status == status.value
  }

  predicate Listed(jobs: Jobs, status: Option<Status>, after: Option<(int, JobId)>, id: JobId) {
    && id in jobs && Matches(jobs[id], status)
    && (after.Some? ==> Older(jobs[id].createdAt, id, after.value.0, after.value.1))
  }

  // Newest first; equal times by descending identifier.
  ghost predicate Descending(jobs: Jobs, ids: seq<JobId>) {
    && (forall i | 0 <= i < |ids| :: ids[i] in jobs)
    && (forall i, j | 0 <= i < j < |ids| :: Older(jobs[ids[j]].createdAt, ids[j], jobs[ids[i]].createdAt, ids[i]))
  }

  ghost predicate IsListing(jobs: Jobs, status: Option<Status>, after: Option<(int, JobId)>, ids: seq<JobId>) {
    Descending(jobs, ids) && forall id :: id in ids <==> Listed(jobs, status, after, id)
  }

  // What is listed: the jobs of the status, if one is asked for, that are older
  // than the position, if there is one.
  lemma ListedExactly(jobs: Jobs, status: Option<Status>, after: Option<(int, JobId)>, id: JobId)
    ensures Listed(jobs, status, after, id) <==>
              && id in jobs && (status == None || status == Some(jobs[id].status))
              && (after.None? || jobs[id].createdAt < after.value.0
                  || (jobs[id].createdAt == after.value.0 && Less(id, after.value.1)))
  {
  }

  // A listing goes from the newest to the oldest.
  lemma NewestFirst(jobs: Jobs, status: Option<Status>, after: Option<(int, JobId)>, ids: seq<JobId>, i: nat, j: nat)
    requires IsListing(jobs, status, after, ids) && i < j < |ids|
    ensures ids[i] in jobs && ids[j] in jobs
    ensures jobs[ids[i]].createdAt > jobs[ids[j]].createdAt
            || (jobs[ids[i]].createdAt == jobs[ids[j]].createdAt && Less(ids[j], ids[i]))
  {
  }

  lemma OlderOnce(t: int, a: JobId, u: int, b: JobId)
    ensures !(Older(t, a, u, b) && Older(u, b, t, a))
    ensures Older(t, a, u, b) || Older(u, b, t, a) || (t == u && a == b)
  {
    LessTotal(a, b);
  }

  lemma OlderTransitive(t: int, a: JobId, u: int, b: JobId, v: int, c: JobId)
    requires Older(t, a, u, b) && Older(u, b, v, c)
    ensures Older(t, a, v, c)
  {
    if t == u == v { LessTransitive(a, b, c); }
  }

  // There is only one listing.
  lemma {:induction false} ListingUnique(jobs: Jobs, status: Option<Status>, after: Option<(int, JobId)>,
      a: seq<JobId>, b: seq<JobId>)
    requires Descending(jobs, a) && Descending(jobs, b) && (forall id :: id in a <==> id in b)
    ensures a == b
    decreases |a|
  {
    assert b == [] || b[0] in b;
    if a != [] {
      assert a[0] in a && a[0] in b;
      assert b[0] in b && b[0] in a;
      var i :| 0 <= i < |b| && b[i] == a[0];
      var j :| 0 <= j < |a| && a[j] == b[0];
      OlderOnce(jobs[a[0]].createdAt, a[0], jobs[b[0]].createdAt, b[0]);
      assert a[0] == b[0];
      forall id
        ensures id in a[1..] <==> id in b[1..]
      {
        RestHasOthers(jobs, a, id);
        RestHasOthers(jobs, b, id);
      }
      ListingUnique(jobs, status, after, a[1..], b[1..]);
    }
  }

  lemma RestHasOthers(jobs: Jobs, ids: seq<JobId>, id: JobId)
    requires Descending(jobs, ids) && ids != []
    ensures id in ids[1..] <==> id in ids && id != ids[0]
  {
    if id in ids[1..] {
      var k :| 0 <= k < |ids[1..]| && ids[1..][k] == id;
      assert ids[k + 1] == id;
      OlderOnce(jobs[ids[k + 1]].createdAt, ids[k + 1], jobs[ids[0]].createdAt, ids[0]);
    }
  }

  function PositionOf(jobs: Jobs, id: JobId): Position
    requires id in jobs
  {
    Position(jobs[id].createdAt, id)
  }

  // What is listed after the k-th job of a listing is the rest of the listing.
  lemma RestIsListing(jobs: Jobs, status: Option<Status>, ids: seq<JobId>, after: Option<(int, JobId)>, k: nat)
    requires IsListing(jobs, status, after, ids) && 0 < k <= |ids|
    ensures IsListing(jobs, status, Some((jobs[ids[k - 1]].createdAt as int, ids[k - 1])), ids[k..])
  {
    var cut := ids[k - 1];
    var position := Some((jobs[cut].createdAt as int, cut));
    forall id
      ensures id in ids[k..] <==> Listed(jobs, status, position, id)
    {
      if id in ids[k..] {
        var i :| 0 <= i < |ids[k..]| && ids[k..][i] == id;
        assert ids[k + i] == id && id in ids;
      }
      if Listed(jobs, status, position, id) {
        assert cut in ids;
        if after.Some? {
          OlderTransitive(jobs[id].createdAt, id, jobs[cut].createdAt, cut, after.value.0, after.value.1);
        }
        assert id in ids;
        var i :| 0 <= i < |ids| && ids[i] == id;
        OlderOnce(jobs[id].createdAt, id, jobs[cut].createdAt, cut);
        assert i >= k && ids[k..][i - k] == id;
      }
    }
  }

  ghost predicate IsNewest(jobs: Jobs, ids: set<JobId>, id: JobId)
    requires ids <= jobs.Keys
  {
    id in ids && forall other <- ids :: other == id || Older(jobs[other].createdAt, other, jobs[id].createdAt, id)
  }

  lemma {:induction false} NewestExists(jobs: Jobs, ids: set<JobId>)
    requires ids <= jobs.Keys && ids != {}
    ensures exists id :: IsNewest(jobs, ids, id)
    decreases |ids|
  {
    var any :| any in ids;
    var rest := ids - {any};
    if rest == {} {
      assert forall other <- ids :: other == any || other in rest;
      assert IsNewest(jobs, ids, any);
    } else {
      NewestExists(jobs, rest);
      var id :| IsNewest(jobs, rest, id);
      NewerOfTwo(jobs, ids, any, id);
    }
  }

  lemma NewerOfTwo(jobs: Jobs, ids: set<JobId>, a: JobId, b: JobId)
    requires ids <= jobs.Keys && a in ids && a != b && IsNewest(jobs, ids - {a}, b)
    ensures exists id :: IsNewest(jobs, ids, id)
  {
    OlderOnce(jobs[a].createdAt, a, jobs[b].createdAt, b);
    if Older(jobs[a].createdAt, a, jobs[b].createdAt, b) {
      assert IsNewest(jobs, ids, b);
    } else {
      forall other <- ids | other != a && other != b ensures Older(jobs[other].createdAt, other, jobs[a].createdAt, a) {
        OlderTransitive(jobs[other].createdAt, other, jobs[b].createdAt, b, jobs[a].createdAt, a);
      }
      assert IsNewest(jobs, ids, a);
    }
  }

  ghost function Sorted(jobs: Jobs, ids: set<JobId>): (sorted: seq<JobId>)
    requires ids <= jobs.Keys
    ensures forall i | 0 <= i < |sorted| :: sorted[i] in ids
    decreases |ids|
  {
    if ids == {} then []
    else
      NewestExists(jobs, ids);
      var id :| IsNewest(jobs, ids, id);
      [id] + Sorted(jobs, ids - {id})
  }

  lemma {:induction false} SortedDescends(jobs: Jobs, ids: set<JobId>)
    requires ids <= jobs.Keys
    ensures Descending(jobs, Sorted(jobs, ids)) && forall id :: id in Sorted(jobs, ids) <==> id in ids
    decreases |ids|
  {
    if ids != {} {
      var id := Sorted(jobs, ids)[0];
      NewestExists(jobs, ids);
      assert IsNewest(jobs, ids, id);
      SortedDescends(jobs, ids - {id});
      assert Sorted(jobs, ids) == [id] + Sorted(jobs, ids - {id});
    }
  }

  // The one listing.
  ghost function Listing(jobs: Jobs, status: Option<Status>, after: Option<(int, JobId)>): seq<JobId> {
    Sorted(jobs, set id | id in jobs && Listed(jobs, status, after, id))
  }

  lemma ListingIs(jobs: Jobs, status: Option<Status>, after: Option<(int, JobId)>, ids: seq<JobId>)
    ensures IsListing(jobs, status, after, Listing(jobs, status, after))
    ensures IsListing(jobs, status, after, ids) ==> ids == Listing(jobs, status, after)
  {
    SortedDescends(jobs, set id | id in jobs && Listed(jobs, status, after, id));
    if IsListing(jobs, status, after, ids) {
      ListingUnique(jobs, status, after, ids, Listing(jobs, status, after));
    }
  }

  // --------------------------------------------------------------- List

  method Insert(jobs: Jobs, ids: seq<JobId>, id: JobId) returns (sorted: seq<JobId>)
    requires Descending(jobs, ids) && id in jobs && id !in ids
    ensures Descending(jobs, sorted) && forall x :: x in sorted <==> x in ids || x == id
  {
    var k := 0;
    while k < |ids| && Older(jobs[id].createdAt, id, jobs[ids[k]].createdAt, ids[k])
      invariant k <= |ids|
      invariant forall i | 0 <= i < k :: Older(jobs[id].createdAt, id, jobs[ids[i]].createdAt, ids[i])
    {
      k := k + 1;
    }
    sorted := ids[..k] + [id] + ids[k..];
    forall i | k <= i < |ids|
      ensures Older(jobs[ids[i]].createdAt, ids[i], jobs[id].createdAt, id)
    {
      assert ids[k] in ids;
      OlderOnce(jobs[id].createdAt, id, jobs[ids[k]].createdAt, ids[k]);
      if k < i {
        OlderTransitive(jobs[ids[i]].createdAt, ids[i], jobs[ids[k]].createdAt, ids[k], jobs[id].createdAt, id);
      }
    }
    assert ids == ids[..k] + ids[k..];
  }

  const DEFAULT_LIMIT := 25

  // The first n of a listing, and whether there is more.
  ghost predicate IsPage(jobs: Jobs, status: Option<Status>, after: Option<(int, JobId)>, n: nat,
    page: seq<JobId>, hasMore: bool)
  {
    var ids := Listing(jobs, status, after);
    page == (if |ids| > n then ids[..n] else ids) && hasMore == (|ids| > n)
  }

  method List(jobs: Jobs, limit: int, after: Option<(int, JobId)>, status: Option<Status>)
    returns (page: seq<JobId>, hasMore: bool)
    ensures IsPage(jobs, status, after, if limit <= 0 then DEFAULT_LIMIT else limit, page, hasMore)
  {
    var ids: seq<JobId> := [];
    var todo := jobs.Keys;
    while todo != {}
      invariant todo <= jobs.Keys && Descending(jobs, ids)
      invariant forall id :: id in ids <==> id in jobs.Keys - todo && Listed(jobs, status, after, id)
      decreases todo
    {
      var id :| id in todo;
      todo := todo - {id};
      if Listed(jobs, status, after, id) {
        ids := Insert(jobs, ids, id);
      }
    }
    var n := if limit <= 0 then DEFAULT_LIMIT else limit;
    hasMore := |ids| > n;
    page := if hasMore then ids[..n] else ids;
    ListingIs(jobs, status, after, ids);
  }

  // ------------------------------------------------------------ ListJobs

  const MAX_LIMIT := 100

  datatype Answer = Page(items: seq<JobId>, next: string) | BadRequest

  predicate Blank(s: string) {
    forall i | 0 <= i < |s| :: s[i] in " \t\n\r"
  }

  predicate ByteIds(jobs: Jobs) {
    forall id <- jobs :: IsBytes(id)
  }

  function PageSize(limit: int): int {
    if limit == 0 then DEFAULT_LIMIT else limit
  }

  function After(cursor: string): Option<(int, JobId)> {
    if Blank(cursor) then None else DecodeCursor(cursor)
  }

  predicate Refused(limit: int, cursor: string) {
    PageSize(limit) < 1 || PageSize(limit) > MAX_LIMIT || (!Blank(cursor) && DecodeCursor(cursor).None?)
  }

  function Cut(jobs: Jobs, ids: seq<JobId>, n: nat): Answer
    requires ByteIds(jobs) && n > 0 && forall i | 0 <= i < |ids| :: ids[i] in jobs
  {
    if |ids| > n then Page(ids[..n], EncodeCursor(PositionOf(jobs, ids[n - 1]))) else Page(ids, "")
  }

  // An answer of ListJobs: a page of the one listing, or a refusal.
  ghost predicate Answers(jobs: Jobs, status: Option<Status>, limit: int, cursor: string, r: Answer)
    requires ByteIds(jobs)
  {
    if Refused(limit, cursor) then r == BadRequest
    else r == Cut(jobs, Listing(jobs, status, After(cursor)), PageSize(limit))
  }

  method ListJobs(jobs: Jobs, status: Option<Status>, limit: int, cursor: string) returns (r: Answer)
    requires ByteIds(jobs)
    ensures Answers(jobs, status, limit, cursor, r)
    ensures r.BadRequest? <==> limit < 0 || limit > 100 || (!Blank(cursor) && DecodeCursor(cursor).None?)
    ensures r.Page? ==> |r.items| <= (if limit == 0 then 25 else limit)
  {
    var n := if limit == 0 then DEFAULT_LIMIT else limit;
    if n < 1 || n > MAX_LIMIT { return BadRequest; }
    var after: Option<(int, JobId)> := None;
    if !Blank(cursor) {
      after := DecodeCursor(cursor);
      if after.None? { return BadRequest; }
    }
    var page, hasMore := List(jobs, n, after, status);
    PageOfJobs(jobs, status, after, n, page, hasMore);
    var next := "";
    if hasMore && |page| > 0 {
      next := EncodeCursor(PositionOf(jobs, page[|page| - 1]));
    }
    r := Page(page, next);
    PageAnswers(jobs, status, limit, cursor, page, hasMore, r);
  }

  lemma PageOfJobs(jobs: Jobs, status: Option<Status>, after: Option<(int, JobId)>, n: nat, page: seq<JobId>,
      hasMore: bool)
    requires IsPage(jobs, status, after, n, page, hasMore)
    ensures (forall i | 0 <= i < |page| :: page[i] in jobs) && (hasMore ==> |page| == n)
  {
  }

  lemma PageAnswers(jobs: Jobs, status: Option<Status>, limit: int, cursor: string, page: seq<JobId>, hasMore: bool,
      r: Answer)
    requires ByteIds(jobs) && !Refused(limit, cursor)
    requires IsPage(jobs, status, After(cursor), PageSize(limit), page, hasMore)
    requires r.Page? && r.items == page && (!hasMore ==> r.next == "")
    requires hasMore ==> page != [] && page[|page| - 1] in jobs && r.next == EncodeCursor(PositionOf(jobs, page[|page| - 1]))
    ensures Answers(jobs, status, limit, cursor, r)
  {
    var n: nat := PageSize(limit);
    CutIs(jobs, Listing(jobs, status, After(cursor)), n, r);
  }

  lemma CutIs(jobs: Jobs, ids: seq<JobId>, n: nat, r: Answer)
    requires ByteIds(jobs) && n > 0 && (forall i | 0 <= i < |ids| :: ids[i] in jobs) && r.Page?
    requires r.items == if |ids| > n then ids[..n] else ids
    requires |ids| <= n ==> r.next == ""
    requires |ids| > n ==> r.next == EncodeCursor(PositionOf(jobs, r.items[n - 1]))
    ensures r == Cut(jobs, ids, n)
  {
  }

  lemma AnswerUnique(jobs: Jobs, status: Option<Status>, limit: int, cursor: string, r: Answer, ids: seq<JobId>)
    requires ByteIds(jobs) && Answers(jobs, status, limit, cursor, r) && !Refused(limit, cursor)
    requires IsListing(jobs, status, After(cursor), ids)
    ensures r == Cut(jobs, ids, PageSize(limit))
  {
    ListingIs(jobs, status, After(cursor), ids);
  }

  // A client follows the cursors until there is none.
  ghost predicate Walks(jobs: Jobs, status: Option<Status>, limit: int, cursor: string, pages: seq<Answer>)
    requires ByteIds(jobs)
    decreases |pages|
  {
    && pages != [] && pages[0].Page? && Answers(jobs, status, limit, cursor, pages[0])
    && if pages[0].next == "" then |pages| == 1 else Walks(jobs, status, limit, pages[0].next, pages[1..])
  }

  function Items(pages: seq<Answer>): seq<JobId> {
    if pages == [] then [] else (if pages[0].Page? then pages[0].items else []) + Items(pages[1..])
  }

  // The position that comes back from the cursor of a job.
  function Returned(jobs: Jobs, id: JobId): (int, JobId)
    requires id in jobs
  {
    (Nanos(jobs[id].createdAt) + UNIX_EPOCH, id)
  }

  // The cursor of the last job before the cut leads to the first one after it:
  // it has an identifier, and its time does not come back later than it is, nor
  // so early that the next job is no longer older.
  predicate Continues(jobs: Jobs, ids: seq<JobId>, k: nat)
    requires 0 < k < |ids| && ids[k - 1] in jobs && ids[k] in jobs
  {
    var (t, id) := Returned(jobs, ids[k - 1]);
    id != "" && t <= jobs[id].createdAt && Older(jobs[ids[k]].createdAt, ids[k], t, id)
  }

  // Every page but the last ends with such a cursor.
  predicate Meets(jobs: Jobs, ids: seq<JobId>, n: nat)
    requires n > 0 && forall i | 0 <= i < |ids| :: ids[i] in jobs
    decreases |ids|
  {
    |ids| <= n || (Continues(jobs, ids, n) && Meets(jobs, ids[n..], n))
  }

  lemma CursorAfter(jobs: Jobs, id: JobId)
    requires ByteIds(jobs) && id in jobs
    ensures var next := EncodeCursor(PositionOf(jobs, id));
            next != "" && !Blank(next) && DecodeCursor(next) == if id == "" then None else Some(Returned(jobs, id))
  {
    DecodeEncode(PositionOf(jobs, id));
    CursorNotBlank(PositionOf(jobs, id));
  }

  lemma ListedInSuffix(jobs: Jobs, status: Option<Status>, after: Option<(int, JobId)>, ids: seq<JobId>, k: nat, i: nat)
    requires IsListing(jobs, status, after, ids) && 0 < k < |ids| && Continues(jobs, ids, k) && i < |ids|
    ensures var (t, id) := Returned(jobs, ids[k - 1]); Older(jobs[ids[i]].createdAt, ids[i], t, id) <==> i >= k
  {
    var (t, id) := Returned(jobs, ids[k - 1]);
    if i > k {
      OlderTransitive(jobs[ids[i]].createdAt, ids[i], jobs[ids[k]].createdAt, ids[k], t, id);
    } else if i < k && Older(jobs[ids[i]].createdAt, ids[i], t, id) {
      if i < k - 1 {
        OlderTransitive(jobs[id].createdAt, id, jobs[ids[i]].createdAt, ids[i], t, id);
      }
      LessTotal(id, id);
    }
  }

  // What is not listed after one position is not listed after the cut either.
  lemma NotBefore(jobs: Jobs, status: Option<Status>, after: Option<(int, JobId)>, ids: seq<JobId>, k: nat, id: JobId)
    requires IsListing(jobs, status, after, ids) && 0 < k < |ids| && Continues(jobs, ids, k)
    requires Listed(jobs, status, Some(Returned(jobs, ids[k - 1])), id)
    ensures id in ids
  {
    var cut := ids[k - 1];
    assert cut in ids;
    if after.Some? {
      OlderTransitive(jobs[id].createdAt, id, jobs[cut].createdAt, cut, after.value.0, after.value.1);
    }
    assert Listed(jobs, status, after, id);
  }

  // Then exactly the rest of the listing follows.
  lemma ContinuesWithRest(jobs: Jobs, status: Option<Status>, after: Option<(int, JobId)>, ids: seq<JobId>, k: nat)
    requires IsListing(jobs, status, after, ids) && 0 < k < |ids| && Continues(jobs, ids, k)
    ensures IsListing(jobs, status, Some(Returned(jobs, ids[k - 1])), ids[k..])
  {
    var position := Some(Returned(jobs, ids[k - 1]));
    forall id
      ensures id in ids[k..] <==> Listed(jobs, status, position, id)
    {
      if id in ids[k..] {
        var i :| 0 <= i < |ids[k..]| && ids[k..][i] == id;
        assert ids[k + i] == id && id in ids;
        ListedInSuffix(jobs, status, after, ids, k, k + i);
      }
      if Listed(jobs, status, position, id) {
        NotBefore(jobs, status, after, ids, k, id);
        var i :| 0 <= i < |ids| && ids[i] == id;
        ListedInSuffix(jobs, status, after, ids, k, i);
        assert ids[k..][i - k] == id;
      }
    }
  }

  // And only then does the job after the cut come first.
  lemma RestContinues(jobs: Jobs, status: Option<Status>, after: Option<(int, JobId)>, ids: seq<JobId>, k: nat,
      rest: seq<JobId>)
    requires IsListing(jobs, status, after, ids) && 0 < k < |ids| && ids[k - 1] != ""
    requires IsListing(jobs, status, Some(Returned(jobs, ids[k - 1])), rest) && rest != [] && rest[0] == ids[k]
    ensures Continues(jobs, ids, k)
  {
    var (t, id) := Returned(jobs, ids[k - 1]);
    assert rest[0] in rest && id in ids;
    if t > jobs[id].createdAt {
      assert Listed(jobs, status, Some((t, id)), id) && id in rest;
      var i :| 0 <= i < |rest| && rest[i] == id;
      OlderOnce(jobs[ids[k]].createdAt, ids[k], jobs[id].createdAt, id);
    }
  }

  lemma CursorNotBlank(p: Position)
    requires IsBytes(p.id)
    ensures !Blank(EncodeCursor(p))
  {
    Payload(p);
    DigitsBack(URL_SAFE, Format(Nanos(p.createdAt)) + ":" + p.id, false);
    var c := EncodeCursor(p)[0];
    assert Value(URL_SAFE, c).Some?;
    assert c !in " \t\n\r";
  }

  lemma OnePage(jobs: Jobs, status: Option<Status>, limit: int, cursor: string, ids: seq<JobId>)
    requires ByteIds(jobs) && !Refused(limit, cursor) && IsListing(jobs, status, After(cursor), ids)
    requires |ids| <= PageSize(limit)
    ensures Walks(jobs, status, limit, cursor, [Page(ids, "")]) && Items([Page(ids, "")]) == ids
  {
    ListingIs(jobs, status, After(cursor), ids);
    assert [Page(ids, "")][1..] == [];
  }

  lemma AnotherPage(jobs: Jobs, status: Option<Status>, limit: int, cursor: string, ids: seq<JobId>, rest: seq<Answer>)
    requires ByteIds(jobs) && !Refused(limit, cursor) && IsListing(jobs, status, After(cursor), ids)
    requires 0 < PageSize(limit) < |ids|
    requires var next := EncodeCursor(PositionOf(jobs, ids[PageSize(limit) - 1]));
             next != "" && Walks(jobs, status, limit, next, rest)
    ensures var next := EncodeCursor(PositionOf(jobs, ids[PageSize(limit) - 1]));
            Walks(jobs, status, limit, cursor, [Page(ids[..PageSize(limit)], next)] + rest)
  {
    ListingIs(jobs, status, After(cursor), ids);
    assert ([Cut(jobs, ids, PageSize(limit))] + rest)[1..] == rest;
  }

  // The cursor of the job before such a cut asks for the rest of the listing.
  lemma NextCursor(jobs: Jobs, status: Option<Status>, limit: int, after: Option<(int, JobId)>, ids: seq<JobId>, k: nat)
    requires ByteIds(jobs) && IsListing(jobs, status, after, ids) && 0 < PageSize(limit) <= MAX_LIMIT
    requires 0 < k < |ids| && Continues(jobs, ids, k)
    ensures var next := EncodeCursor(PositionOf(jobs, ids[k - 1]));
            next != "" && !Refused(limit, next) && IsListing(jobs, status, After(next), ids[k..])
  {
    CursorAfter(jobs, ids[k - 1]);
    ContinuesWithRest(jobs, status, after, ids, k);
  }

  // The first page of several asks for the rest of the listing.
  lemma Onward(jobs: Jobs, status: Option<Status>, limit: int, cursor: string, ids: seq<JobId>)
    returns (next: string)
    requires ByteIds(jobs) && !Refused(limit, cursor) && 0 < PageSize(limit) < |ids|
    requires IsListing(jobs, status, After(cursor), ids) && Continues(jobs, ids, PageSize(limit))
    ensures !Refused(limit, next) && IsListing(jobs, status, After(next), ids[PageSize(limit)..])
    ensures forall rest :: Walks(jobs, status, limit, next, rest) ==>
                             Walks(jobs, status, limit, cursor, [Page(ids[..PageSize(limit)], next)] + rest)
  {
    next := EncodeCursor(PositionOf(jobs, ids[PageSize(limit) - 1]));
    NextCursor(jobs, status, limit, After(cursor), ids, PageSize(limit));
    forall rest | Walks(jobs, status, limit, next, rest)
      ensures Walks(jobs, status, limit, cursor, [Page(ids[..PageSize(limit)], next)] + rest)
    {
      AnotherPage(jobs, status, limit, cursor, ids, rest);
    }
  }

  // If every page end leads on, following the cursors ends.
  lemma {:induction false} WalkEnds(jobs: Jobs, status: Option<Status>, limit: int, cursor: string, ids: seq<JobId>)
    returns (pages: seq<Answer>)
    requires ByteIds(jobs) && !Refused(limit, cursor)
    requires IsListing(jobs, status, After(cursor), ids) && Meets(jobs, ids, PageSize(limit))
    ensures Walks(jobs, status, limit, cursor, pages)
    decreases |ids|
  {
    var n: nat := PageSize(limit);
    if |ids| <= n {
      OnePage(jobs, status, limit, cursor, ids);
      return [Page(ids, "")];
    }
    var next := Onward(jobs, status, limit, cursor, ids);
    var rest := WalkEnds(jobs, status, limit, next, ids[n..]);
    return [Page(ids[..n], next)] + rest;
  }

  lemma RefusedStops(jobs: Jobs, status: Option<Status>, limit: int, cursor: string, pages: seq<Answer>)
    requires ByteIds(jobs) && Refused(limit, cursor)
    ensures !Walks(jobs, status, limit, cursor, pages)
  {
  }

  lemma FirstPage(jobs: Jobs, status: Option<Status>, limit: int, cursor: string, ids: seq<JobId>, pages: seq<Answer>)
    requires ByteIds(jobs) && IsListing(jobs, status, After(cursor), ids) && Walks(jobs, status, limit, cursor, pages)
    ensures !Refused(limit, cursor) && pages[0] == Cut(jobs, ids, PageSize(limit))
    ensures pages[0].next == "" ==> pages[1..] == []
    ensures pages[0].next != "" ==> Walks(jobs, status, limit, pages[0].next, pages[1..])
  {
    if Refused(limit, cursor) { RefusedStops(jobs, status, limit, cursor, pages); }
    AnswerUnique(jobs, status, limit, cursor, pages[0], ids);
  }

  lemma LastPage(jobs: Jobs, status: Option<Status>, limit: int, cursor: string, ids: seq<JobId>, pages: seq<Answer>)
    requires ByteIds(jobs) && IsListing(jobs, status, After(cursor), ids)
    requires Walks(jobs, status, limit, cursor, pages) && |ids| <= PageSize(limit)
    ensures !Refused(limit, cursor) && Items(pages) == ids
  {
    FirstPage(jobs, status, limit, cursor, ids, pages);
    assert Items(pages[1..]) == [];
  }

  lemma ItemsJoin(pages: seq<Answer>, ids: seq<JobId>, n: nat)
    requires pages != [] && n <= |ids| && pages[0].Page? && pages[0].items == ids[..n] && Items(pages[1..]) == ids[n..]
    ensures Items(pages) == ids
  {
  }

  // The first of several pages, and the walk after it.
  lemma FirstOfMany(jobs: Jobs, status: Option<Status>, limit: int, cursor: string, ids: seq<JobId>,
      pages: seq<Answer>)
    requires ByteIds(jobs) && IsListing(jobs, status, After(cursor), ids) && 0 < PageSize(limit) < |ids|
    requires Walks(jobs, status, limit, cursor, pages)
    ensures var next := EncodeCursor(PositionOf(jobs, ids[PageSize(limit) - 1]));
            pages[0] == Page(ids[..PageSize(limit)], next) && Walks(jobs, status, limit, next, pages[1..])
  {
    CursorAfter(jobs, ids[PageSize(limit) - 1]);
    FirstPage(jobs, status, limit, cursor, ids, pages);
  }

  // If the first of several pages leads on, the walk after it is over the rest.
  lemma RestOfMany(jobs: Jobs, status: Option<Status>, limit: int, cursor: string, ids: seq<JobId>,
      pages: seq<Answer>)
    requires ByteIds(jobs) && 0 < PageSize(limit) <= MAX_LIMIT && PageSize(limit) < |ids|
    requires IsListing(jobs, status, After(cursor), ids) && Continues(jobs, ids, PageSize(limit))
    requires Walks(jobs, status, limit, cursor, pages)
    ensures pages[0].Page? && pages[0].items == ids[..PageSize(limit)]
    ensures Walks(jobs, status, limit, pages[0].next, pages[1..])
    ensures IsListing(jobs, status, After(pages[0].next), ids[PageSize(limit)..])
  {
    NextCursor(jobs, status, limit, After(cursor), ids, PageSize(limit));
    FirstOfMany(jobs, status, limit, cursor, ids, pages);
  }

  // The pages of a walk together are then the listing, without gap or repetition.
  lemma {:induction false} WalkIsListing(jobs: Jobs, status: Option<Status>, limit: int, cursor: string,
      ids: seq<JobId>, pages: seq<Answer>)
    requires ByteIds(jobs) && 0 < PageSize(limit) <= MAX_LIMIT
    requires IsListing(jobs, status, After(cursor), ids) && Meets(jobs, ids, PageSize(limit))
    requires Walks(jobs, status, limit, cursor, pages)
    ensures Items(pages) == ids
    decreases |pages|
  {
    var n: nat := PageSize(limit);
    if |ids| <= n {
      LastPage(jobs, status, limit, cursor, ids, pages);
    } else {
      RestOfMany(jobs, status, limit, cursor, ids, pages);
      WalkIsListing(jobs, status, limit, pages[0].next, ids[n..], pages[1..]);
      ItemsJoin(pages, ids, n);
    }
  }

  // A walk that gives the rest of a listing begins with its first job.
  lemma FirstItem(jobs: Jobs, status: Option<Status>, limit: int, cursor: string, ids: seq<JobId>, pages: seq<Answer>)
    requires ByteIds(jobs) && IsListing(jobs, status, After(cursor), ids) && PageSize(limit) > 0
    requires Walks(jobs, status, limit, cursor, pages) && Items(pages) != []
    ensures ids != [] && Items(pages)[0] == ids[0]
  {
    if |ids| <= PageSize(limit) {
      LastPage(jobs, status, limit, cursor, ids, pages);
    } else {
      FirstPage(jobs, status, limit, cursor, ids, pages);
    }
  }

  lemma ItemsAfter(pages: seq<Answer>, ids: seq<JobId>, n: nat)
    requires pages != [] && n <= |ids| && pages[0].Page? && pages[0].items == ids[..n] && Items(pages) == ids
    ensures Items(pages[1..]) == ids[n..]
  {
    assert Items(pages) == ids[..n] + Items(pages[1..]);
  }

  lemma RestOfWalk(jobs: Jobs, status: Option<Status>, limit: int, cursor: string, ids: seq<JobId>,
      pages: seq<Answer>)
    requires ByteIds(jobs) && IsListing(jobs, status, After(cursor), ids) && 0 < PageSize(limit) < |ids|
    requires Walks(jobs, status, limit, cursor, pages) && Items(pages) == ids
    ensures Walks(jobs, status, limit, EncodeCursor(PositionOf(jobs, ids[PageSize(limit) - 1])), pages[1..])
    ensures Items(pages[1..]) == ids[PageSize(limit)..]
  {
    FirstOfMany(jobs, status, limit, cursor, ids, pages);
    ItemsAfter(pages, ids, PageSize(limit));
  }

  lemma WalkContinues(jobs: Jobs, status: Option<Status>, limit: int, after: Option<(int, JobId)>, ids: seq<JobId>,
      k: nat, pages: seq<Answer>)
    requires ByteIds(jobs) && IsListing(jobs, status, after, ids) && 0 < k < |ids| && PageSize(limit) > 0
    requires var next := EncodeCursor(PositionOf(jobs, ids[k - 1]));
             Walks(jobs, status, limit, next, pages) && Items(pages) == ids[k..]
    ensures Continues(jobs, ids, k)
  {
    var next := EncodeCursor(PositionOf(jobs, ids[k - 1]));
    CursorAfter(jobs, ids[k - 1]);
    if Refused(limit, next) {
      RefusedStops(jobs, status, limit, next, pages);
    } else {
      var rest := Listing(jobs, status, After(next));
      ListingIs(jobs, status, After(next), rest);
      FirstItem(jobs, status, limit, next, rest, pages);
      RestContinues(jobs, status, after, ids, k, rest);
    }
  }

  lemma {:induction false} WalkMeets(jobs: Jobs, status: Option<Status>, limit: int, cursor: string, ids: seq<JobId>,
      pages: seq<Answer>)
    requires ByteIds(jobs) && 0 < PageSize(limit) <= MAX_LIMIT && IsListing(jobs, status, After(cursor), ids)
    requires Walks(jobs, status, limit, cursor, pages) && Items(pages) == ids
    ensures Meets(jobs, ids, PageSize(limit))
    decreases |ids|
  {
    var n: nat := PageSize(limit);
    if |ids| > n {
      RestOfWalk(jobs, status, limit, cursor, ids, pages);
      WalkContinues(jobs, status, limit, After(cursor), ids, n, pages[1..]);
      NextCursor(jobs, status, limit, After(cursor), ids, n);
      WalkMeets(jobs, status, limit, EncodeCursor(PositionOf(jobs, ids[n - 1])), ids[n..], pages[1..]);
    }
  }

  // Some walk gives the whole listing.
  ghost predicate GivesAll(jobs: Jobs, status: Option<Status>, limit: int, ids: seq<JobId>)
    requires ByteIds(jobs)
  {
    exists pages :: Walks(jobs, status, limit, "", pages) && Items(pages) == ids
  }

  // For every store, filter and accepted limit: following the cursors ends and
  // gives the listing exactly if every page end leads on, and then no walk
  // gives anything else.
  lemma WalkExactly(jobs: Jobs, status: Option<Status>, limit: int, ids: seq<JobId>)
    requires ByteIds(jobs) && (limit == 0 || 1 <= limit <= MAX_LIMIT) && IsListing(jobs, status, None, ids)
    ensures GivesAll(jobs, status, limit, ids) <==> Meets(jobs, ids, PageSize(limit))
    ensures forall pages :: GivesAll(jobs, status, limit, ids) && Walks(jobs, status, limit, "", pages) ==> Items(pages) == ids
  {
    assert Blank("");
    if GivesAll(jobs, status, limit, ids) {
      var pages :| Walks(jobs, status, limit, "", pages) && Items(pages) == ids;
      WalkMeets(jobs, status, limit, "", ids, pages);
    } else if Meets(jobs, ids, PageSize(limit)) {
      var pages := WalkEnds(jobs, status, limit, "", ids);
      WalkIsListing(jobs, status, limit, "", ids, pages);
    }
    forall pages | GivesAll(jobs, status, limit, ids) && Walks(jobs, status, limit, "", pages)
      ensures Items(pages) == ids
    {
      WalkIsListing(jobs, status, limit, "", ids, pages);
    }
  }

  // ------------------------------------------------- times within the range

  predicate TimesCarried(jobs: Jobs) {
    forall id <- jobs :: In64(jobs[id].createdAt as int - UNIX_EPOCH)
  }

  // No page but the last ends with a job without an identifier.
  predicate PageEndsNamed(ids: seq<JobId>, n: nat)
    requires n > 0
    decreases |ids|
  {
    |ids| <= n || (ids[n - 1] != "" && PageEndsNamed(ids[n..], n))
  }

  lemma CarriedContinues(jobs: Jobs, ids: seq<JobId>, k: nat)
    requires TimesCarried(jobs) && Descending(jobs, ids) && 0 < k < |ids|
    ensures Continues(jobs, ids, k) <==> ids[k - 1] != ""
  {
    WrapKeeps(jobs[ids[k - 1]].createdAt as int - UNIX_EPOCH);
  }

  // With times a cursor can carry, names at the page ends are all it takes.
  lemma {:induction false} CarriedMeets(jobs: Jobs, ids: seq<JobId>, n: nat)
    requires TimesCarried(jobs) && Descending(jobs, ids) && n > 0
    ensures Meets(jobs, ids, n) <==> PageEndsNamed(ids, n)
    decreases |ids|
  {
    if |ids| > n {
      CarriedContinues(jobs, ids, n);
      CarriedMeets(jobs, ids[n..], n);
    }
  }

  const FAR: nat := UNIX_EPOCH + 0x8000_0000_0000_0000

  function FarJobs(j: Job): Jobs {
    map["a" := j.(createdAt := UNIX_EPOCH), "b" := j.(createdAt := FAR)]
  }

  lemma FarListings(j: Job)
    ensures IsListing(FarJobs(j), None, None, ["b", "a"])
    ensures IsListing(FarJobs(j), None, Some((MIN64 + UNIX_EPOCH, "b")), [])
  {
  }

  lemma FarNanos()
    ensures Nanos(FAR) == MIN64
  {
  }

  lemma FarCursor()
    ensures var next := EncodeCursor(Position(FAR, "b"));
            next != "" && !Blank(next) && DecodeCursor(next) == Some((MIN64 + UNIX_EPOCH, "b"))
  {
    FarNanos();
    DecodeEncode(Position(FAR, "b"));
    CursorNotBlank(Position(FAR, "b"));
  }

  lemma TwoPages(jobs: Jobs, status: Option<Status>, limit: int, one: Answer, two: Answer)
    requires ByteIds(jobs) && one.Page? && two.Page? && one.next != "" && two.next == ""
    requires Answers(jobs, status, limit, "", one) && Answers(jobs, status, limit, one.next, two)
    ensures Walks(jobs, status, limit, "", [one, two]) && Items([one, two]) == one.items + two.items
  {
    assert [one, two][1..] == [two] && [two][1..] == [];
    assert Walks(jobs, status, limit, one.next, [two]);
    assert Items([two]) == two.items + Items([]);
  }

  lemma FarAnswers(j: Job)
    ensures ByteIds(FarJobs(j))
    ensures Answers(FarJobs(j), None, 1, "", Page(["b"], EncodeCursor(Position(FAR, "b"))))
    ensures Answers(FarJobs(j), None, 1, EncodeCursor(Position(FAR, "b")), Page([], ""))
  {
    FarListings(j);
    FarCursor();
    assert ["b", "a"][..1] == ["b"] && Blank("");
    ListingIs(FarJobs(j), None, None, ["b", "a"]);
    ListingIs(FarJobs(j), None, Some((MIN64 + UNIX_EPOCH, "b")), []);
  }

  // A creation time beyond the range comes back from its cursor as another
  // time: the listing is b and a, but the walk ends after b.
  lemma FarTimeLosesJobs(j: Job) returns (pages: seq<Answer>)
    ensures IsListing(FarJobs(j), None, None, ["b", "a"])
    ensures ByteIds(FarJobs(j)) && Walks(FarJobs(j), None, 1, "", pages) && Items(pages) == ["b"]
  {
    FarListings(j);
    FarAnswers(j);
    FarCursorSet();
    pages := [Page(["b"], EncodeCursor(Position(FAR, "b"))), Page([], "")];
    TwoPages(FarJobs(j), None, 1, pages[0], pages[1]);
    assert ["b"] + [] == ["b"];
  }

  lemma FarCursorSet()
    ensures EncodeCursor(Position(FAR, "b")) != ""
  {
    DecodeEncode(Position(FAR, "b"));
  }

  // Two jobs created at the zero time: a page ends with a time that comes back
  // as a later one, so that the first page follows itself.
  function ZeroJobs(j: Job): Jobs {
    map["a" := j.(createdAt := NO_TIME), "b" := j.(createdAt := NO_TIME)]
  }

  lemma ZeroReturns()
    ensures Nanos(NO_TIME) + UNIX_EPOCH > 0
  {
  }

  lemma ZeroListing(j: Job, after: Option<(int, JobId)>)
    requires after.None? || after.value.0 > 0
    ensures IsListing(ZeroJobs(j), None, after, ["b", "a"])
  {
  }

  lemma ZeroAfter(j: Job)
    ensures var next := EncodeCursor(Position(NO_TIME, "b"));
            next != "" && After(next).Some? && After(next).value.0 > 0
  {
    DecodeEncode(Position(NO_TIME, "b"));
    CursorNotBlank(Position(NO_TIME, "b"));
    ZeroReturns();
  }

  // No walk over them ends.
  lemma {:induction false} ZeroTimesNeverEnd(j: Job, cursor: string, pages: seq<Answer>)
    requires cursor == "" || cursor == EncodeCursor(Position(NO_TIME, "b"))
    ensures ByteIds(ZeroJobs(j)) && !Walks(ZeroJobs(j), None, 1, cursor, pages)
    decreases |pages|
  {
    var jobs, next := ZeroJobs(j), EncodeCursor(Position(NO_TIME, "b"));
    assert Blank("");
    ZeroAfter(j);
    ZeroListing(j, After(cursor));
    if Walks(jobs, None, 1, cursor, pages) {
      FirstPage(jobs, None, 1, cursor, ["b", "a"], pages);
      assert pages[0].next == next;
      ZeroTimesNeverEnd(j, next, pages[1..]);
    }
  }
}
