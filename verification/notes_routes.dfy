/**
 * The notes API (api/src/routes/notes.ts): intake with its field checks and
 * the job it enqueues, the paginated listing, and the replay controller.
 *
 * The record store is a map, the queue is the log of jobs added to it, and the
 * library checks the routes delegate to (`Date.parse`, zod's URL check,
 * `parseInt`) are inputs.
 */
module NotesRoutes {
  import opened Wrappers
  import opened NoteModel

  /** The `attempts` option of every enqueued job. */
  const JobAttempts: nat := 3

  /** The `delay` of the job's exponential backoff policy, in milliseconds. */
  const JobBackoffDelay: nat := 1000

  /** The fixed page size of the listing; a `limit` query parameter is ignored. */
  const PageSize: nat := 20

  /** The queue's backoff option; the routes only ever pass the exponential kind. */
  datatype BackoffOption = Exponential(delay: nat)

  /** A `sendNote` job as added to the queue. `delay` is absent when the request gave none. */
  datatype Job = Job(noteId: NoteId, delay: Option<int>, attempts: nat, backoff: BackoffOption)

  /** The job the routes enqueue for a note, with the given delay. */
  function SendNoteJob(id: NoteId, delay: Option<int>): (j: Job)
    ensures j.noteId == id && j.delay == delay
    ensures j.attempts == 3 && j.backoff == Exponential(1000)
  {
    Job(id, delay, JobAttempts, Exponential(JobBackoffDelay))
  }

  /**
   * The optional `delay` field of a create body: left out, a number, or
   * present with any other JSON value (a string, `null`, an object), which
   * the schema refuses.
   */
  datatype DelayField = NoDelay | DelayNumber(ms: int) | DelayNotNumber

  /**
   * The create request body. A string field is `None` when it is missing or
   * not a string; the schema refuses both alike.
   */
  datatype CreateRequest = CreateRequest(
    title: Option<string>,
    body: Option<string>,
    releaseAt: Option<string>,
    webhookUrl: Option<string>,
    delay: DelayField)

  /** The parsed `delay`: absent when the body left it out. */
  function ParsedDelay(d: DelayField): (r: Option<int>)
    requires !d.DelayNotNumber?
    ensures r.None? <==> d.NoDelay?
    ensures d.DelayNumber? ==> r == Some(d.ms)
  {
    match d
    case NoDelay => None
    case DelayNumber(ms) => Some(ms)
  }

  /** `Date.parse` (None for NaN) and zod's URL check, which the schema delegates to. */
  datatype Parsers = Parsers(parseDate: string -> Option<Time>, isUrl: string -> bool)

  /** What `noteScehma.parse` returns when it accepts the body. */
  datatype Fields = Fields(title: string, body: string, releaseAt: Time, webhookUrl: string, delay: Option<int>)

  /** The schema's checks on one request body. */
  predicate ValidCreate(req: CreateRequest, p: Parsers) {
    && req.title.Some? && req.title.value != ""
    && req.body.Some? && req.body.value != ""
    && req.releaseAt.Some? && p.parseDate(req.releaseAt.value).Some?
    && req.webhookUrl.Some? && p.isUrl(req.webhookUrl.value)
    && !req.delay.DelayNotNumber?
    && (req.delay.DelayNumber? ==> req.delay.ms >= 0)
  }

  /** The schema parse: accepts exactly the valid bodies and passes their fields on unchanged. */
  function ParseCreate(req: CreateRequest, p: Parsers): (r: Option<Fields>)
    ensures r.Some? <==> ValidCreate(req, p)
    ensures r.Some? ==>
      && r.value.title == req.title.value && r.value.body == req.body.value
      && Some(r.value.releaseAt) == p.parseDate(req.releaseAt.value)
      && r.value.webhookUrl == req.webhookUrl.value
      && (req.delay.NoDelay? ==> r.value.delay == None)
      && (req.delay.DelayNumber? ==> r.value.delay == Some(req.delay.ms) && req.delay.ms >= 0)
    ensures req.delay.DelayNotNumber? ==> r == None
  {
    if ValidCreate(req, p) then
      Some(Fields(req.title.value, req.body.value, p.parseDate(req.releaseAt.value).value,
                  req.webhookUrl.value, ParsedDelay(req.delay)))
    else None
  }

  datatype CreateResponse = Created201(id: NoteId) | BadRequest400 | InternalError500

  datatype CreateResult = CreateResult(store: Store, jobs: seq<Job>, response: CreateResponse)

  /**
   * `POST /`: validate, store a pending note under the id the store assigns,
   * then enqueue one job. A body the schema rejects is a 400. An insert the
   * document layer refuses is caught as a 500: the id is already taken, or a
   * required string is empty (zod's URL check is an input here, so only the
   * schema's `required` rule is known to exclude an empty URL). Nothing
   * changes unless the answer is 201.
   */
  function Create(store: Store, jobs: seq<Job>, req: CreateRequest, p: Parsers, freshId: NoteId): (r: CreateResult)
    ensures r.response.BadRequest400? <==> !ValidCreate(req, p)
    ensures r.response.InternalError500? <==> ValidCreate(req, p) && (freshId in store || req.webhookUrl.value == "")
    ensures !r.response.Created201? ==> r.store == store && r.jobs == jobs
    ensures r.response.Created201? ==>
      && r.response.id == freshId && freshId !in store
      && r.store.Keys == store.Keys + {freshId}
      && (forall id :: id in store ==> r.store[id] == store[id])
      && r.store[freshId].status == Pending && r.store[freshId].attempts == []
      && r.store[freshId].deliveredAt == None
      && r.store[freshId].title == req.title.value && r.store[freshId].body == req.body.value
      && r.store[freshId].webhookUrl == req.webhookUrl.value
      && Some(r.store[freshId].releaseAt) == p.parseDate(req.releaseAt.value)
      && RequiredFieldsPresent(r.store[freshId])
      && r.jobs == jobs + [SendNoteJob(freshId, ParsedDelay(req.delay))]
  {
    match ParseCreate(req, p)
    case None => CreateResult(store, jobs, BadRequest400)
    case Some(f) =>
      var note := NewNote(f.title, f.body, f.releaseAt, f.webhookUrl);
      if freshId in store || !RequiredFieldsPresent(note) then CreateResult(store, jobs, InternalError500)
      else
        CreateResult(store[freshId := note], jobs + [SendNoteJob(freshId, f.delay)], Created201(freshId))
  }

  datatype ReplayResponse = NotFound404 | CannotReplay400 | Requeued200(id: NoteId)

  datatype ReplayResult = ReplayResult(store: Store, jobs: seq<Job>, response: ReplayResponse)

  /** Only a failed or dead note may be replayed. */
  predicate Replayable(s: Status) {
    s == Failed || s == Dead
  }

  /**
   * `POST /:id/replay`: unknown id is a 404, a delivered or pending note is a
   * 400, and a failed or dead note is reset to pending with no attempts and
   * requeued at once. The success body carries the id only, not the status.
   */
  function Replay(store: Store, jobs: seq<Job>, id: NoteId): (r: ReplayResult)
    ensures r.response.NotFound404? <==> id !in store
    ensures r.response.CannotReplay400? <==> id in store && !Replayable(store[id].status)
    ensures r.response.Requeued200? <==> id in store && Replayable(store[id].status)
    ensures !r.response.Requeued200? ==> r.store == store && r.jobs == jobs
    ensures r.response.Requeued200? ==>
      && r.response.id == id
      && r.store.Keys == store.Keys
      && (forall other :: other in store && other != id ==> r.store[other] == store[other])
      && r.store[id].status == Pending && r.store[id].attempts == []
      && SamePayload(store[id], r.store[id]) && r.store[id].deliveredAt == store[id].deliveredAt
      && r.jobs == jobs + [SendNoteJob(id, Some(0))]
  {
    if id !in store then ReplayResult(store, jobs, NotFound404)
    else
      var note := store[id];
      if note.status == Delivered || note.status == Pending then ReplayResult(store, jobs, CannotReplay400)
      else
        var reset := note.(status := Pending, attempts := []);
        ReplayResult(store[id := reset], jobs + [SendNoteJob(id, Some(0))], Requeued200(id))
  }

  /** A replay that succeeded cannot be repeated: the note is pending now, so the second one is a 400 and changes nothing. */
  lemma ReplayNotRepeatable(store: Store, jobs: seq<Job>, id: NoteId)
    requires Replay(store, jobs, id).response.Requeued200?
    ensures
      var first := Replay(store, jobs, id);
      Replay(first.store, first.jobs, id) == ReplayResult(first.store, first.jobs, CannotReplay400)
  {
  }

  /**
   * A freshly created note cannot be replayed: the route answers 400, not the
   * 200 with status "pending" that api/test/notes.test.ts expects.
   */
  lemma ReplayAfterCreateRejected(store: Store, jobs: seq<Job>, req: CreateRequest, p: Parsers, freshId: NoteId)
    requires Create(store, jobs, req, p, freshId).response.Created201?
    ensures
      var c := Create(store, jobs, req, p, freshId);
      Replay(c.store, c.jobs, freshId).response == CannotReplay400
  {
  }

  // ---------------------------------------------------------------- listing

  /** One listed document: its id and its fields. */
  datatype Entry = Entry(id: NoteId, note: Note)

  datatype ListResponse = Listed(entries: seq<Entry>) | ListError500

  /** `parseInt(page) || 1`: NaN (None) and 0 both fall back to the first page. */
  function EffectivePage(parsedPage: Option<int>): (page: int)
    ensures page != 0
    ensures parsedPage.Some? && parsedPage.value != 0 ==> page == parsedPage.value
    ensures parsedPage.None? || parsedPage.value == 0 ==> page == 1
  {
    match parsedPage
    case Some(n) => if n != 0 then n else 1
    case None => 1
  }

  /** The status filter: applied only when the query string is present and non-empty. */
  predicate MatchesFilter(n: Note, statusQuery: Option<string>) {
    statusQuery.None? || statusQuery.value == "" || StatusName(n.status) == statusQuery.value
  }

  /** The ids the filter selects. */
  function MatchingIds(store: Store, statusQuery: Option<string>): (ids: set<NoteId>)
    ensures ids <= store.Keys
  {
    set id | id in store && MatchesFilter(store[id], statusQuery)
  }

  /** Entries in non-increasing order of release time (`sort({ releaseAt: -1 })`). */
  predicate SortedByReleaseDesc(s: seq<Entry>) {
    forall i, j :: 0 <= i < j < |s| ==> s[i].note.releaseAt >= s[j].note.releaseAt
  }

  predicate DistinctIds(s: seq<Entry>) {
    forall i, j :: 0 <= i < j < |s| ==> s[i].id != s[j].id
  }

  /** Every entry is the stored document under its id and passes the filter. */
  predicate FromStore(s: seq<Entry>, store: Store, statusQuery: Option<string>) {
    forall i :: 0 <= i < |s| ==> s[i].id in store && store[s[i].id] == s[i].note && MatchesFilter(s[i].note, statusQuery)
  }

  /** The ids a sequence of entries mentions. */
  function IdsOf(s: seq<Entry>): (ids: set<NoteId>) {
    set i | 0 <= i < |s| :: s[i].id
  }

  lemma IdsOfSnoc(s: seq<Entry>, e: Entry)
    ensures IdsOf(s + [e]) == IdsOf(s) + {e.id}
  {
    var t := s + [e];
    assert t[|s|].id == e.id;
    assert forall i :: 0 <= i < |s| ==> t[i] == s[i];
  }

  /** Appending a matching note released no later than every listed one keeps the listing invariants. */
  lemma AppendLatest(s: seq<Entry>, e: Entry, store: Store, statusQuery: Option<string>)
    requires FromStore(s, store, statusQuery) && DistinctIds(s) && SortedByReleaseDesc(s)
    requires e.id in store && store[e.id] == e.note && MatchesFilter(e.note, statusQuery)
    requires e.id !in IdsOf(s)
    requires |s| > 0 ==> e.note.releaseAt <= s[|s| - 1].note.releaseAt
    ensures FromStore(s + [e], store, statusQuery) && DistinctIds(s + [e]) && SortedByReleaseDesc(s + [e])
    ensures IdsOf(s + [e]) == IdsOf(s) + {e.id}
    ensures forall i :: 0 <= i < |s| ==> (s + [e])[i] == s[i]
  {
    IdsOfSnoc(s, e);
    var t := s + [e];
    forall i | 0 <= i < |s|
      ensures t[i].id != e.id
    {
      assert s[i].id in IdsOf(s);
    }
  }

  function Min(a: int, b: int): (m: int) { if a <= b then a else b }

  function Max(a: int, b: int): (m: int) { if a >= b then a else b }

  /** Some id of a non-empty set whose note is released no earlier than any other's. */
  lemma LatestExists(ids: set<NoteId>, store: Store)
    requires ids != {} && ids <= store.Keys
    ensures exists top :: top in ids && forall id :: id in ids ==> store[id].releaseAt <= store[top].releaseAt
  {
    var x :| x in ids;
    if ids - {x} != {} {
      LatestExists(ids - {x}, store);
      var top :| top in ids - {x} && forall id :: id in ids - {x} ==> store[id].releaseAt <= store[top].releaseAt;
      if store[x].releaseAt > store[top].releaseAt {
        assert forall id :: id in ids ==> store[id].releaseAt <= store[x].releaseAt;
      } else {
        assert forall id :: id in ids ==> store[id].releaseAt <= store[top].releaseAt;
      }
    } else {
      assert ids == {x};
    }
  }

  /**
   * The filtered collection sorted on release time, newest first, each
   * matching note exactly once. Ties are ordered arbitrarily, as the store
   * does not promise an order among equal keys.
   */
  method SortedMatches(store: Store, statusQuery: Option<string>) returns (all: seq<Entry>)
    ensures |all| == |MatchingIds(store, statusQuery)|
    ensures IdsOf(all) == MatchingIds(store, statusQuery)
    ensures FromStore(all, store, statusQuery)
    ensures DistinctIds(all)
    ensures SortedByReleaseDesc(all)
  {
    var matching := MatchingIds(store, statusQuery);
    var rest := matching;
    all := [];
    while rest != {}
      invariant rest <= matching
      invariant |all| + |rest| == |matching|
      invariant IdsOf(all) == matching - rest
      invariant FromStore(all, store, statusQuery)
      invariant DistinctIds(all)
      invariant SortedByReleaseDesc(all)
      invariant |all| > 0 ==> forall id :: id in rest ==> store[id].releaseAt <= all[|all| - 1].note.releaseAt
      decreases rest
    {
      LatestExists(rest, store);
      var top :| top in rest && forall id :: id in rest ==> store[id].releaseAt <= store[top].releaseAt;
      var e := Entry(top, store[top]);
      assert top in matching;
      AppendLatest(all, e, store, statusQuery);
      all := all + [e];
      rest := rest - {top};
    }
  }

  /** The slice of the sorted collection a page shows: `skip((page-1)*20).limit(20)`. */
  function Page(all: seq<Entry>, page: int): (s: seq<Entry>)
    requires page >= 1
    ensures |s| == Min(PageSize, Max(0, |all| - (page - 1) * PageSize))
    ensures forall i :: 0 <= i < |s| ==> s[i] == all[(page - 1) * PageSize + i]
  {
    var skip := (page - 1) * PageSize;
    if skip >= |all| then [] else all[skip..Min(skip + PageSize, |all|)]
  }

  /** Pages tile the sorted collection: element i is shown on page i/20 + 1, at position i%20, and on no other page. */
  lemma PagesTile(all: seq<Entry>, i: nat, page: int)
    requires i < |all| && page >= 1
    ensures var p := i / PageSize + 1; i % PageSize < |Page(all, p)| && Page(all, p)[i % PageSize] == all[i]
    ensures page != i / PageSize + 1 ==>
      !((page - 1) * PageSize <= i < (page - 1) * PageSize + |Page(all, page)|)
  {
    var p := i / PageSize + 1;
    var q := i / 20;
    assert q * 20 <= i < q * 20 + 20;
    assert (p - 1) * PageSize + i % PageSize == i;
    if page < p {
      assert page <= q;
      assert (page - 1) * 20 + 20 <= q * 20;
    } else if page > p {
      assert page >= q + 2;
      assert (page - 1) * 20 >= q * 20 + 20;
    }
  }

  /**
   * `GET /`: filter on status, sort by release time descending, skip
   * `(page-1)*20` and return at most 20. A negative skip (page below 1) is
   * refused by the store and answered with a 500.
   */
  method ListNotes(store: Store, statusQuery: Option<string>, parsedPage: Option<int>) returns (r: ListResponse)
    ensures r.ListError500? <==> EffectivePage(parsedPage) < 1
    ensures r.Listed? ==>
      && |r.entries| <= PageSize
      && |r.entries| == Min(PageSize, Max(0, |MatchingIds(store, statusQuery)| - (EffectivePage(parsedPage) - 1) * PageSize))
      && FromStore(r.entries, store, statusQuery)
      && DistinctIds(r.entries)
      && SortedByReleaseDesc(r.entries)
    ensures r.Listed? ==> exists all ::
      && IdsOf(all) == MatchingIds(store, statusQuery)
      && |all| == |MatchingIds(store, statusQuery)|
      && FromStore(all, store, statusQuery) && DistinctIds(all) && SortedByReleaseDesc(all)
      && EffectivePage(parsedPage) >= 1
      && r.entries == Page(all, EffectivePage(parsedPage))
  {
    var page := EffectivePage(parsedPage);
    if page < 1 {
      return ListError500;
    }
    var all := SortedMatches(store, statusQuery);
    var shown := Page(all, page);
    var skip := (page - 1) * PageSize;
    assert forall i :: 0 <= i < |shown| ==> shown[i] == all[skip + i];
    r := Listed(shown);
  }

  /** With a status filter every listed note has that status. */
  lemma ListedHaveStatus(s: seq<Entry>, store: Store, status: Status)
    requires FromStore(s, store, Some(StatusName(status)))
    ensures forall i :: 0 <= i < |s| ==> s[i].note.status == status
  {
    forall i | 0 <= i < |s|
      ensures s[i].note.status == status
    {
      StatusNameInjective(s[i].note.status, status);
    }
  }
}
