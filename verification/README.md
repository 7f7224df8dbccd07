# droplater delivery pipeline — a Dafny model

droplater stores a "note" (title, body, release time, webhook URL) and POSTs
its body to the webhook once the release time has passed. A polling worker
picks up due notes, records one attempt for each try that returns 200 or
a code of 300 or above or that throws, and marks a note `delivered`
or, after three failed tries, `dead`. An operator can replay a dead note. The
receiving service deduplicates on an idempotency key, so a repeated delivery
has no repeated effect. The admin UI truncates long cells and maps each status
to a badge.

The model covers that pipeline as pure functions over immutable values:

- `NoteModel` (`note_model.dfy`): the `Status`, `Attempt` and `Note` shapes, and the defaults of a new document.
- `Worker` (`worker.dfy`): the due-note filter and the delivery step for one outcome. It also covers the retry backoff, the invariant every step keeps, the polling round as a loop, and the retry timer's guard.
- `NotesRoutes` (`notes_routes.dfy`): intake validation, note creation and the job it enqueues, replay, and the filtered, sorted, paginated listing.
- `Sink` (`sink.dfy`): the receiver's insert-if-absent on `idempotency:<key>`, with the at-most-once effect over any request sequence.
- `Auth` (`auth.dfy`): the bearer-token check.
- `NotesTable` (`notes_table.dfy`): `truncateContent` and the status-to-badge mapping.
- `Pipeline` (`pipeline.dfy`): the events above run in sequence from an empty store, with the invariants every reachable state keeps and the delivery scenarios.

Every I/O call is replaced by an input or an output value:

- The record store is a `map<NoteId, Note>`.
- The job queue is the log of jobs added to it.
- The Redis key store is a `set<string>`.
- Each outbound POST is an `Outcome`: `Returned(code)` or `Thrown(responseStatus?, message)`.
- Time is an integer number of milliseconds.
- `Date.parse`, zod's URL check and `parseInt` are inputs.

### Behaviour the model keeps as written

- **Worker success test.** The worker treats a returned response as delivered when its code is 200 or at least 300, rather than for every code in 200..299. A returned 201–299 has no `else` branch, so the record is left untouched: no attempt is recorded, the note stays pending and due, and the attempt budget never runs out (`Pipeline.Non200PollsNeverSettle`). The model keeps this test as written.
- **Replay of a pending note.** The API test expects replay of a freshly created, pending note to answer 200 with `status: "pending"`. The route answers 400 (`NotesRoutes.ReplayAfterCreateRejected`). Its success body carries only a message and the id, with no status field.
- **Page size.** The test passes `limit=5`, but the page size is fixed at 20.
- **`failed` status.** The worker never writes `failed`, so in every reachable state only `dead` notes can be replayed.
- **Retry timers.** A retry timer does not re-send one note. It re-runs a whole polling round, and only when its note still exists and is pending.

## Model

| member | source | states |
|---|---|---|
| NoteModel.ParseStatus | api/src/models/Note.ts:32 | a status string is accepted exactly when it is one of the four enum values |
| NoteModel.StatusNameRoundTrip | api/src/models/Note.ts:15 | spelling a status and reading it back gives that status, and a successful read inverts the spelling |
| NoteModel.StatusNameInjective | api/src/models/Note.ts:15 | distinct statuses have distinct spellings, so a status filter selects one status |
| NoteModel.NewNote | api/src/models/Note.ts:27-35 | a new document keeps the given payload and defaults to pending, no attempts and no deliveredAt; the required strings are present iff none is empty |
| Worker.Backoff | worker/src/index.ts:31 | the backoff for attempt count 0 is 1000 ms, each further count doubles it, and every value is a positive multiple of 1000 |
| Worker.BackoffClosedForm | worker/src/index.ts:62-87 | a thrown failure of a note with k-1 attempts on record, k below 3, schedules its retry after 1000·2^(k-1) ms: 1000 ms for the first retry, 2000 ms for the second |
| Worker.FailureCode | worker/src/index.ts:73 | a thrown failure records the response status when present and non-zero; when it is absent or 0 it records 500 |
| Worker.OutboundRequest | worker/src/index.ts:48-53 | each try posts the body to the webhook URL; both the X-Webhook-Id and the X-Idempotency-Key header equal the note id |
| Worker.Deliver | worker/src/index.ts:54-88 | for a code of 200 or ≥300: delivered, deliveredAt = now, one ok attempt appended. For 201–299: nothing changes. For a thrown failure: one failed attempt appended, dead iff the new count reaches 3, otherwise pending with a retry after Backoff(previous count). The payload never changes |
| Worker.DeliverKeepsConsistent | worker/src/index.ts:54-88 | a step on a due, consistent note keeps it consistent: fewer than 3 failed attempts while pending, exactly 3 when dead, delivered ends with its only ok attempt and carries deliveredAt |
| Worker.NotDueUntouched | worker/src/index.ts:40-43 | a polling round leaves every note that is not due (not pending, or not yet released) unchanged and starts no timer for it |
| Worker.PassKeepsConsistent | worker/src/index.ts:46-90 | a whole polling round keeps every note of the store consistent |
| Worker.SelectDue | worker/src/index.ts:40-43 | a note is selected iff its status is pending and its release time is at or before now; each selected once |
| Worker.RequestsFor | worker/src/index.ts:46-53 | one request per selected note, each built from the record as selected and keyed by its id, no id twice |
| Worker.ProcessNotes | worker/src/index.ts:33-91 | the loop over the selected notes writes back exactly one delivery step per due note, collects exactly the retries those steps schedule, and posts exactly one request per due note, built from the record as selected |
| Worker.OnRetryTimer | worker/src/index.ts:94-101 | a fired timer runs a full polling round, with that round's writes and retries, only when its note exists and is pending; otherwise it changes nothing and schedules nothing |
| NotesRoutes.SendNoteJob | api/src/routes/notes.ts:39-50 | every enqueued job names the note and carries attempts 3 and exponential backoff with base delay 1000 |
| NotesRoutes.ParsedDelay | api/src/routes/notes.ts:17 | a left-out delay stays absent and a numeric delay passes through as that number |
| NotesRoutes.ParseCreate | api/src/routes/notes.ts:10-18 | the schema accepts a body iff title and body are non-empty strings, releaseAt parses as a date, webhookUrl passes the URL check and delay is left out or a number ≥ 0; a delay of any other JSON type is refused; accepted fields pass through unchanged |
| NotesRoutes.Create | api/src/routes/notes.ts:25-62 | an invalid body is a 400 with no note and no job. A valid one stores a pending note with the given fields and no attempts, enqueues exactly one job with that id and the request's delay, and answers 201 with the id. A refused insert is a 500 with no change |
| NotesRoutes.Replay | api/src/routes/notes.ts:90-127 | an unknown id is a 404 and a delivered or pending note is a 400, both with no change and no job. A failed or dead note becomes pending with no attempts and its other fields unchanged; exactly one job with delay 0 is enqueued and the answer is 200 with the id |
| NotesRoutes.ReplayNotRepeatable | api/src/routes/notes.ts:100-107 | a second replay right after a successful one is refused with 400 and changes nothing |
| NotesRoutes.ReplayAfterCreateRejected | api/src/routes/notes.ts:100-102 | replaying a freshly created note answers 400 |
| NotesRoutes.EffectivePage | api/src/routes/notes.ts:69 | the page is the parsed value when it is a non-zero number, and 1 when parsing gives NaN or 0 |
| NotesRoutes.SortedMatches | api/src/routes/notes.ts:72-78 | the filtered collection holds each matching note exactly once, as stored, ordered by release time newest first |
| NotesRoutes.Page | api/src/routes/notes.ts:76-77 | a page is the slice starting at (page-1)·20 with length min(20, remaining) |
| NotesRoutes.PagesTile | api/src/routes/notes.ts:76-77 | the i-th sorted note appears on page i/20+1 at position i mod 20 and on no other page |
| NotesRoutes.ListNotes | api/src/routes/notes.ts:66-86 | a page below 1 is a 500 (negative skip); otherwise at most 20 stored, distinct, filter-matching notes newest first, as many as remain after skipping (page-1)·20 of the matches. The entries are exactly that slice of some newest-first ordering of all matching notes |
| NotesRoutes.ListedHaveStatus | api/src/routes/notes.ts:73 | with a status filter every listed note has that status |
| Sink.StoreKey | sink/src/index.ts:20 | the store key is the prefix `idempotency:` followed by the header value |
| Sink.StoreKeyInjective | sink/src/index.ts:20 | different header values never share a store key |
| Sink.Hook | sink/src/index.ts:13-31 | a missing or empty key is a 400 with no change. A new key is recorded, its effect runs once and the answer is 200. A known key is a 200 with no change and no effect |
| Sink.HookKeepsAccounted | sink/src/index.ts:20-30 | one request keeps the key store equal to the prefixed keys whose effect ran, with no effect repeated |
| Sink.EffectOncePerKey | sink/src/index.ts:20-30 | over any request sequence the set of keys whose effect ran grows by exactly the keys sent, and no effect repeats |
| Sink.EffectCountIsDistinctKeys | sink/src/index.ts:20-30 | from an empty store, the number of effects equals the number of distinct keys sent |
| Auth.ExpectedHeader | api/src/middlerware/auth.ts:6 | the expected header is "Bearer " followed by the token, or by "undefined" when the token is unset |
| Auth.AuthCheck | api/src/middlerware/auth.ts:3-14 | `next` is called iff the header equals the expected value exactly; a missing header is a 401 |
| Auth.ExactMatchOnly | api/src/middlerware/auth.ts:9-10 | the exact header passes; one extra character or a lower-case "bearer" is a 401 |
| Auth.UnsetTokenAcceptsUndefined | api/src/middlerware/auth.ts:6-9 | with the token unset, the header "Bearer undefined" is let through |
| Auth.AuthCheckFailClosed | api/src/middlerware/auth.ts:6-10 | fail-closed check: passes iff a non-empty token is configured and the header is exactly "Bearer " + token |
| Auth.FailClosedAgreesWhenConfigured | api/src/middlerware/auth.ts:6-10 | the fail-closed check agrees with `AuthCheck` whenever a non-empty token is configured, and refuses everything when none is |
| NotesTable.TruncateContent | admin/src/components/NotesTable.tsx:59-61 | content within the limit is returned unchanged. Longer content becomes its first maxLength characters followed by "...", of length maxLength+3. A negative limit leaves only "..." |
| NotesTable.TruncateBounds | admin/src/components/NotesTable.tsx:60 | a truncated cell is at most limit+3 long and is either the content or a prefix of it followed by "..." |
| NotesTable.BodyCell | admin/src/components/NotesTable.tsx:96 | a body of at most 50 characters is shown whole; a longer one as its first 50 characters followed by "..." |
| NotesTable.UrlCell | admin/src/components/NotesTable.tsx:108 | a URL of at most 30 characters is shown whole; a longer one as its first 30 characters followed by "..." |
| NotesTable.StatusBadgeVariant | admin/src/components/NotesTable.tsx:46-57 | lower-cased "sent" maps to default, "pending" to secondary, "failed" to destructive, and anything else to outline |
| NotesTable.BadgeIgnoresCase | admin/src/components/NotesTable.tsx:47 | inputs that differ only in letter case get the same variant |
| NotesTable.BadgeOfStoredStatus | admin/src/components/NotesTable.tsx:48-55 | pending is secondary, failed destructive, delivered and dead outline; no stored status gets default |
| Pipeline.CreateKeepsConsistent | api/src/routes/notes.ts:31-37 | creation adds only notes that satisfy the worker's invariant |
| Pipeline.ReplayKeepsConsistent | api/src/routes/notes.ts:105-107 | replay of a dead note yields a pending note with no attempts and no deliveredAt |
| Pipeline.StepKeepsConsistent | worker/src/index.ts:54-88 | every event keeps every note consistent |
| Pipeline.ReachableConsistent | worker/src/index.ts:79 | along any event sequence: never failed, at most 3 attempts, pending below 3, dead at exactly 3 failed, delivered with deliveredAt and one final ok attempt |
| Pipeline.AttemptsBounded | worker/src/index.ts:79 | from the empty store every note has at most 3 attempts and is never failed, and a pending note has fewer than 3 |
| Pipeline.TerminalNotesFrozen | worker/src/index.ts:40-43 | dead and delivered notes are unchanged by every event except a replay of a dead note |
| Pipeline.StaleTimerIsNoOp | worker/src/index.ts:97-98 | a timer for a missing or non-pending note is consumed and changes nothing else |
| Pipeline.FirstSuccessDelivers | worker/src/index.ts:54-61 | a due fresh note answered with 200 is delivered with one attempt and deliveredAt = now, and no retry is scheduled |
| Pipeline.ThreeFailuresKill | worker/src/index.ts:64-88 | three thrown failures: retries after 1000 then 2000 ms, then dead with three failed attempts, no retry and never due again |
| Pipeline.ReplayRestartsCycle | api/src/routes/notes.ts:105-119 | replaying a dead note answers 200, resets it to pending with no attempts and enqueues a job with delay 0 |
| Pipeline.Non200SuccessNeverSettles | worker/src/index.ts:54-63 | corollary for one note: any number of returned 201–299 responses leave a due note exactly as it was and still due |
| Pipeline.Non200PollsNeverSettle | worker/src/index.ts:46-63 | along any run of polling rounds in which the note's call returns 201–299, the note stays exactly as it was and no retry timer is started for it |
| Pipeline.KeyHeaders | worker/src/index.ts:50-51 | every try of a note carries the note id as idempotency key |
| Pipeline.RetriesProcessedOnce | worker/src/index.ts:50-51 | however many tries one note gets, a deduplicating receiver runs its effect exactly once |

## Findings

| source | as written | input that shows it | evidently intended | confidence | as-written member | corrected member |
|---|---|---|---|---|---|---|
| api/src/middlerware/auth.ts:6-9 | the expected header is built by interpolating the token variable even when it is unset, giving "Bearer undefined" | token unset, header `Bearer undefined` → `next` is called | refuse every request when no token is configured | medium, not executed | Auth.UnsetTokenAcceptsUndefined | Auth.AuthCheckFailClosed |

## Left out

- I/O against MongoDB, Redis, the queue and HTTP. Their effects are the values described above. Infrastructure failures are not modelled. In the routes, a store or queue call that throws is answered with 500; a partial create (note stored, job not added) is among these. In the worker, a throwing success-branch `updateOne` (worker/src/index.ts:55) lands in the catch branch and records a failed attempt for a note that was in fact posted. A throwing `find` (worker/src/index.ts:40-43) or catch-branch `updateOne` (worker/src/index.ts:67) rejects the whole round: the remaining due notes are skipped and no retry timer is started. Nothing handles that rejection: `setInterval` (worker/src/index.ts:107) and the retry callback (worker/src/index.ts:87) drop the promise, and no `unhandledRejection` listener exists, so under Node's default mode the worker process stops and every pending retry timer is lost with it. The model instead lets polling carry on.
- The queue's own retry and backoff execution. Only the job parameters the routes pass are recorded. The worker shown polls the store and never consumes these jobs.
- `setInterval`/`setTimeout` scheduling and overlapping polling rounds. One round runs as a sequential step, and a timer may fire at any time at or after its due time.
- Axios's rule for which response codes throw is not modelled. The outcome of each call is an input.
- Worker.ProcessNotes: every outbound POST is assumed to finish, returning or throwing. The worker sets no timeout on `axios.post` (worker/src/index.ts:48-53), so a webhook that accepts the connection and never answers stalls the rest of that round; the later notes of `readyNotes` are not reached, and each later poll selects the hung note again and posts it again. The model gives every due note exactly one step per round.
- `Date.parse`, zod's URL check and `parseInt` are inputs. zod's length counts UTF-16 code units; in the model a string is a sequence of Unicode characters, so only emptiness matters, and it agrees.
- Worker.Deliver: every write of one polling round is stamped with the round's single `now`, the instant the due notes are selected. The worker reads the clock afresh for each write after the awaited POST (worker/src/index.ts:37, 58, 59, 72), so its stored `attempts[].at` and `deliveredAt` are at or after the selection time, and the two stamps of one delivery may differ from each other; the model promises neither.
- NotesRoutes.Create: a fractional `delay` (such as 1.5), which the schema accepts, is not expressible, since a delay number is an integer of milliseconds.
- NotesRoutes.Replay: a malformed id makes the store's id cast throw, which is answered with 500. This is not modelled: ids are opaque strings, and an unknown one is a 404.
- NotesRoutes.ListNotes: page and skip are unbounded integers, while the route computes them as JavaScript doubles that round past 2^53 (and `parseInt` can give `Infinity`) and the store takes a 64-bit skip. A page whose skip the store would refuse, which the route answers with 500, is listed here as an empty page.
- NotesRoutes.ListNotes: a repeated `status` query parameter, which arrives as an array, is not modelled. Query values are single strings.
- NotesTable.TruncateContent: lengths are counted in characters, not in UTF-16 code units as JavaScript does, so text outside the Basic Multilingual Plane is cut at a different place.
- NotesTable.StatusBadgeVariant: lower-casing is ASCII only, while JavaScript's `toLowerCase` covers all of Unicode.
- Logging, the health routes, rate limiting, the server bootstrap, reading `ADMIN_TOKEN` from the environment (it is a parameter), and the React form, app state and JSX of the admin UI.
