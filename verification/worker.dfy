/**
 * The polling delivery worker (worker/src/index.ts): selection of due notes,
 * classification of one outbound outcome, the attempt it appends, the status
 * it writes, and the retry it schedules with exponential backoff.
 *
 * The outbound HTTP call is not performed: its outcome is an input.
 */
module Worker {
  import opened Wrappers
  import opened NoteModel

  /** A note is marked dead once this many attempts have been recorded. */
  const MaxAttempts: nat := 3

  /** The backoff multiplier in milliseconds. */
  const BaseDelay: nat := 1000

  /** What the outbound POST produced: a response the client returned, or a thrown error. */
  datatype Outcome =
    | Returned(code: int)
    | Thrown(responseStatus: Option<int>, message: string)

  /** The outbound request: target, JSON content and the two id headers. */
  datatype Request = Request(url: string, content: string, webhookId: string, idempotencyKey: string)

  /** The record after one delivery step and, when a retry is scheduled, its delay. */
  datatype StepResult = StepResult(note: Note, retryIn: Option<nat>)

  function Pow2(n: nat): (p: nat)
    ensures p >= 1
  {
    if n == 0 then 1 else 2 * Pow2(n - 1)
  }

  /** Delay before re-running after a failure when `attempt` attempts were on record. */
  function Backoff(attempt: nat): (ms: nat)
    ensures ms >= BaseDelay && ms % BaseDelay == 0
    ensures attempt == 0 ==> ms == BaseDelay
    ensures attempt >= 1 ==> ms == 2 * Backoff(attempt - 1)
  {
    Pow2(attempt) * BaseDelay
  }

  /**
   * The retry a thrown failure schedules: a note with k-1 failed attempts on
   * record, k below three, is re-run after 1000 * 2^(k-1) ms, so the first
   * retry waits 1000 ms and the second 2000 ms.
   */
  lemma BackoffClosedForm(n: Note, responseStatus: Option<int>, message: string, now: Time)
    requires |n.attempts| + 1 < MaxAttempts
    ensures Deliver(n, Thrown(responseStatus, message), now).retryIn == Some(BaseDelay * Pow2(|n.attempts|))
    ensures |n.attempts| == 0 ==> Deliver(n, Thrown(responseStatus, message), now).retryIn == Some(1000)
    ensures |n.attempts| == 1 ==> Deliver(n, Thrown(responseStatus, message), now).retryIn == Some(2000)
  {
  }

  /** The `find` filter of a polling round: still pending and released. */
  predicate IsDue(n: Note, now: Time) {
    n.status == Pending && n.releaseAt <= now
  }

  /** The success test as written: 200, or any code of 300 and above. */
  predicate CountsAsDelivered(code: int) {
    code == 200 || code >= 300
  }

  /** The status code recorded for a thrown failure: the response's, unless absent or 0 (falsy), then 500. */
  function FailureCode(responseStatus: Option<int>): (c: int)
    ensures c != 0
    ensures responseStatus.Some? && responseStatus.value != 0 ==> c == responseStatus.value
    ensures responseStatus.None? || responseStatus.value == 0 ==> c == 500
  {
    match responseStatus
    case Some(s) => if s != 0 then s else 500
    case None => 500
  }

  /** The request sent for a note: both id headers carry the note's id. */
  function OutboundRequest(id: NoteId, n: Note): (req: Request)
    ensures req.webhookId == id && req.idempotencyKey == id
    ensures req.url == n.webhookUrl && req.content == n.body
  {
    Request(n.webhookUrl, n.body, id, id)
  }

  /**
   * One iteration of the polling loop for one note. A returned response that
   * counts as delivered records an ok attempt and sets `delivered`; any other
   * returned response changes nothing, since that branch has no `else`; a
   * thrown failure records a failed attempt and either keeps the note pending
   * with a retry or marks it dead.
   */
  function Deliver(n: Note, outcome: Outcome, now: Time): (r: StepResult)
    ensures SamePayload(n, r.note)
    ensures r.note.status != Failed || r.note == n
    ensures outcome.Returned? && CountsAsDelivered(outcome.code) ==>
      && r.note.status == Delivered && r.note.deliveredAt == Some(now)
      && r.note.attempts == n.attempts + [Attempt(now, outcome.code, true, None)]
      && r.retryIn == None
    ensures outcome.Returned? && !CountsAsDelivered(outcome.code) ==>
      r.note == n && r.retryIn == None
    ensures outcome.Thrown? ==>
      && r.note.attempts == n.attempts + [Attempt(now, FailureCode(outcome.responseStatus), false, Some(outcome.message))]
      && r.note.deliveredAt == n.deliveredAt
      && (r.note.status == Dead <==> |n.attempts| + 1 >= MaxAttempts)
      && (r.note.status == Pending <==> |n.attempts| + 1 < MaxAttempts)
    ensures r.retryIn.Some? <==> outcome.Thrown? && r.note.status == Pending
    ensures r.retryIn.Some? ==> r.retryIn.value == Backoff(|n.attempts|)
  {
    match outcome
    case Returned(code) =>
      if CountsAsDelivered(code) then
        var attempt := Attempt(now, code, true, None);
        StepResult(n.(status := Delivered, deliveredAt := Some(now), attempts := n.attempts + [attempt]), None)
      else
        StepResult(n, None)
    case Thrown(responseStatus, message) =>
      var attemptsCount := |n.attempts|;
      var attempt := Attempt(now, FailureCode(responseStatus), false, Some(message));
      var status := if attemptsCount + 1 >= MaxAttempts then Dead else Pending;
      var retry := if attemptsCount + 1 < MaxAttempts then Some(Backoff(attemptsCount)) else None;
      StepResult(n.(status := status, attempts := n.attempts + [attempt]), retry)
  }

  /** The invariant the worker keeps on every note it can reach. */
  ghost predicate Consistent(n: Note) {
    && n.status != Failed
    && |n.attempts| <= MaxAttempts
    && (n.status == Pending ==> |n.attempts| < MaxAttempts && NoneOk(n.attempts))
    && (n.status == Dead ==> |n.attempts| == MaxAttempts && NoneOk(n.attempts))
    && (n.status == Delivered ==>
          |n.attempts| >= 1 && n.attempts[|n.attempts| - 1].ok && NoneOk(n.attempts[..|n.attempts| - 1]))
    && (n.deliveredAt.Some? <==> n.status == Delivered)
  }

  /**
   * A delivery step on a due, consistent note yields a consistent note: a
   * pending note never reaches more than three attempts, a dead one has
   * exactly three failed ones, and a delivered one ends with its only ok attempt.
   */
  lemma DeliverKeepsConsistent(n: Note, outcome: Outcome, now: Time)
    requires Consistent(n) && IsDue(n, now)
    ensures Consistent(Deliver(n, outcome, now).note)
  {
  }

  /** A step of the polling loop never touches a note that is not due, so dead and delivered notes stay as they are. */
  lemma NotDueUntouched(store: Store, now: Time, outcome: NoteId -> Outcome, id: NoteId)
    requires id in store && !IsDue(store[id], now)
    ensures id in AfterPass(store, now, outcome) && AfterPass(store, now, outcome)[id] == store[id]
    ensures id !in RetriesOf(store, now, outcome)
  {
  }

  /** The store after one polling round: every due note takes one delivery step. */
  function AfterPass(store: Store, now: Time, outcome: NoteId -> Outcome): (s: Store)
    ensures s.Keys == store.Keys
  {
    map id | id in store :: if IsDue(store[id], now) then Deliver(store[id], outcome(id), now).note else store[id]
  }

  /** The retry timers one polling round starts: note id to delay. */
  function RetriesOf(store: Store, now: Time, outcome: NoteId -> Outcome): (t: map<NoteId, nat>)
    ensures t.Keys <= store.Keys
  {
    map id | id in store && IsDue(store[id], now) && Deliver(store[id], outcome(id), now).retryIn.Some?
      :: Deliver(store[id], outcome(id), now).retryIn.value
  }

  /** All notes of a store are consistent. */
  ghost predicate AllConsistent(store: Store) {
    forall id :: id in store ==> Consistent(store[id])
  }

  /** A polling round keeps every note consistent, and only ever writes pending, delivered or dead. */
  lemma PassKeepsConsistent(store: Store, now: Time, outcome: NoteId -> Outcome)
    requires AllConsistent(store)
    ensures AllConsistent(AfterPass(store, now, outcome))
  {
    var s := AfterPass(store, now, outcome);
    forall id | id in s
      ensures Consistent(s[id])
    {
      if IsDue(store[id], now) {
        DeliverKeepsConsistent(store[id], outcome(id), now);
      }
    }
  }

  /**
   * The `find` of a polling round, as a scan over the collection: the ids of
   * exactly the pending notes whose release time has passed, each once.
   */
  method SelectDue(store: Store, now: Time) returns (due: seq<NoteId>)
    ensures forall id :: id in due <==> id in store && IsDue(store[id], now)
    ensures forall i, j :: 0 <= i < j < |due| ==> due[i] != due[j]
  {
    due := [];
    var rest := store.Keys;
    while rest != {}
      invariant rest <= store.Keys
      invariant forall id :: id in due <==> id in store && id !in rest && IsDue(store[id], now)
      invariant forall i, j :: 0 <= i < j < |due| ==> due[i] != due[j]
      decreases rest
    {
      var id :| id in rest;
      if IsDue(store[id], now) {
        due := due + [id];
      }
      rest := rest - {id};
    }
  }

  /** The requests posted for the selected notes, in selection order, built from the records as selected. */
  method RequestsFor(store: Store, now: Time, due: seq<NoteId>) returns (sent: seq<Request>)
    requires forall id :: id in due <==> id in store && IsDue(store[id], now)
    requires forall i, j :: 0 <= i < j < |due| ==> due[i] != due[j]
    ensures forall i :: 0 <= i < |sent| ==>
      var id := sent[i].idempotencyKey;
      id in store && IsDue(store[id], now) && sent[i] == OutboundRequest(id, store[id])
    ensures forall id :: id in store && IsDue(store[id], now) ==>
      exists i :: 0 <= i < |sent| && sent[i].idempotencyKey == id
    ensures forall i, j :: 0 <= i < j < |sent| ==> sent[i].idempotencyKey != sent[j].idempotencyKey
  {
    sent := [];
    var i := 0;
    while i < |due|
      invariant 0 <= i <= |due|
      invariant |sent| == i
      invariant forall k :: 0 <= k < i ==> sent[k] == OutboundRequest(due[k], store[due[k]])
    {
      sent := sent + [OutboundRequest(due[i], store[due[i]])];
      i := i + 1;
    }
    forall id | id in store && IsDue(store[id], now)
      ensures exists k :: 0 <= k < |sent| && sent[k].idempotencyKey == id
    {
      var k :| 0 <= k < |due| && due[k] == id;
      assert sent[k].idempotencyKey == id;
    }
  }

  /**
   * `processNotes`: select the due notes, then deliver them one after the
   * other, writing each result back and collecting the retry timers. `sent`
   * is the requests the round posts: one per due note, built from the record
   * as selected, keyed by the note's id.
   */
  method ProcessNotes(store: Store, now: Time, outcome: NoteId -> Outcome)
    returns (store': Store, retries: map<NoteId, nat>, sent: seq<Request>)
    ensures store' == AfterPass(store, now, outcome)
    ensures retries == RetriesOf(store, now, outcome)
    ensures forall i :: 0 <= i < |sent| ==>
      var id := sent[i].idempotencyKey;
      id in store && IsDue(store[id], now) && sent[i] == OutboundRequest(id, store[id])
    ensures forall id :: id in store && IsDue(store[id], now) ==>
      exists i :: 0 <= i < |sent| && sent[i].idempotencyKey == id
    ensures forall i, j :: 0 <= i < j < |sent| ==> sent[i].idempotencyKey != sent[j].idempotencyKey
  {
    var due := SelectDue(store, now);
    store' := store;
    retries := map[];
    sent := RequestsFor(store, now, due);
    var i := 0;
    while i < |due|
      invariant 0 <= i <= |due|
      invariant store'.Keys == store.Keys
      invariant forall id :: id in store && !(id in due[..i]) ==> store'[id] == store[id]
      invariant forall id :: id in due[..i] ==> store'[id] == Deliver(store[id], outcome(id), now).note
      invariant forall id :: id in retries <==>
        id in due[..i] && Deliver(store[id], outcome(id), now).retryIn.Some?
      invariant forall id :: id in retries ==> retries[id] == Deliver(store[id], outcome(id), now).retryIn.value
    {
      var id := due[i];
      assert due[..i + 1] == due[..i] + [id];
      assert id !in due[..i];
      var r := Deliver(store[id], outcome(id), now);
      store' := store'[id := r.note];
      if r.retryIn.Some? {
        retries := retries[id := r.retryIn.value];
      }
      i := i + 1;
    }
    assert due[..i] == due;
  }

  /** `processSingleNote`'s guard: a timer re-runs the round only for an existing, still pending note. */
  predicate RetryGuard(store: Store, id: NoteId) {
    id in store && store[id].status == Pending
  }

  /**
   * A retry timer firing: when the guard holds it runs a whole polling round
   * (not just that note), otherwise nothing changes.
   */
  function OnRetryTimer(store: Store, id: NoteId, now: Time, outcome: NoteId -> Outcome): (r: (Store, map<NoteId, nat>))
    ensures !RetryGuard(store, id) ==> r.0 == store && r.1 == map[]
    ensures RetryGuard(store, id) ==> r.0 == AfterPass(store, now, outcome) && r.1 == RetriesOf(store, now, outcome)
  {
    if RetryGuard(store, id) then (AfterPass(store, now, outcome), RetriesOf(store, now, outcome))
    else (store, map[])
  }
}
