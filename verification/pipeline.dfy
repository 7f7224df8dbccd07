/**
 * The whole delayed-delivery pipeline as a sequence of events over one state:
 * note intake and replay from the API, polling rounds and retry timers from
 * the worker. The properties here relate several steps: the per-note
 * invariant every reachable state keeps, what terminal notes are protected
 * from, the delivery scenarios, and the idempotency key the receiver relies on.
 */
module Pipeline {
  import opened Wrappers
  import opened NoteModel
  import opened Worker
  import opened NotesRoutes
  import Sink

  /** A retry timer started by a failed delivery: which note, and when it may fire. */
  datatype Timer = Timer(id: NoteId, fireAt: Time)

  /** The record store, the queue's job log and the worker's outstanding retry timers. */
  datatype State = State(store: Store, jobs: seq<Job>, timers: multiset<Timer>)

  datatype Event =
    | CreateNote(req: CreateRequest, parsers: Parsers, freshId: NoteId)
    | ReplayNote(id: NoteId)
    | Poll(now: Time, outcome: NoteId -> Outcome)
    | FireTimer(timer: Timer, now: Time, outcome: NoteId -> Outcome)

  const Init: State := State(map[], [], multiset{})

  /** The timers a polling round at `now` starts for the retries it scheduled. */
  function TimersFor(retries: map<NoteId, nat>, now: Time): (ts: multiset<Timer>) {
    multiset(set id | id in retries :: Timer(id, now + retries[id]))
  }

  /** One event. A timer fires only when it exists and its time has come; it is consumed either way its guard goes. */
  function Step(s: State, e: Event): (s': State)
    ensures s'.store.Keys >= s.store.Keys
    ensures |s'.jobs| <= |s.jobs| + 1
  {
    match e
    case CreateNote(req, parsers, freshId) =>
      var r := Create(s.store, s.jobs, req, parsers, freshId);
      State(r.store, r.jobs, s.timers)
    case ReplayNote(id) =>
      var r := Replay(s.store, s.jobs, id);
      State(r.store, r.jobs, s.timers)
    case Poll(now, outcome) =>
      State(AfterPass(s.store, now, outcome), s.jobs, s.timers + TimersFor(RetriesOf(s.store, now, outcome), now))
    case FireTimer(t, now, outcome) =>
      if t in s.timers && t.fireAt <= now then
        var (store', retries) := OnRetryTimer(s.store, t.id, now, outcome);
        State(store', s.jobs, s.timers - multiset{t} + TimersFor(retries, now))
      else s
  }

  function Run(s: State, events: seq<Event>): (s': State)
    decreases |events|
  {
    if events == [] then s else Run(Step(s, events[0]), events[1..])
  }

  /** A created note satisfies the worker's invariant: pending, no attempts, not delivered. */
  lemma CreateKeepsConsistent(store: Store, jobs: seq<Job>, req: CreateRequest, p: Parsers, freshId: NoteId)
    requires AllConsistent(store)
    ensures AllConsistent(Create(store, jobs, req, p, freshId).store)
  {
  }

  /** Replay of a dead note in a consistent store gives a consistent pending note with no attempts. */
  lemma ReplayKeepsConsistent(store: Store, jobs: seq<Job>, id: NoteId)
    requires AllConsistent(store)
    ensures AllConsistent(Replay(store, jobs, id).store)
  {
  }

  /** Every event keeps every note consistent. */
  lemma StepKeepsConsistent(s: State, e: Event)
    requires AllConsistent(s.store)
    ensures AllConsistent(Step(s, e).store)
  {
    match e
    case CreateNote(req, parsers, freshId) =>
      CreateKeepsConsistent(s.store, s.jobs, req, parsers, freshId);
    case ReplayNote(id) =>
      ReplayKeepsConsistent(s.store, s.jobs, id);
    case Poll(now, outcome) =>
      PassKeepsConsistent(s.store, now, outcome);
    case FireTimer(t, now, outcome) =>
      if t in s.timers && t.fireAt <= now && RetryGuard(s.store, t.id) {
        PassKeepsConsistent(s.store, now, outcome);
      }
  }

  /**
   * From the empty store, along any sequence of events: no note is ever
   * `failed`, no note has more than three attempts, a pending note has fewer
   * than three and none ok, a dead note has exactly three failed ones, and a
   * delivered note carries `deliveredAt` and ends with its only ok attempt.
   */
  lemma {:induction false} ReachableConsistent(s: State, events: seq<Event>)
    requires AllConsistent(s.store)
    ensures AllConsistent(Run(s, events).store)
    decreases |events|
  {
    if events != [] {
      StepKeepsConsistent(s, events[0]);
      ReachableConsistent(Step(s, events[0]), events[1..]);
    }
  }

  /** The invariant, stated for the reachable states and one note at a time. */
  lemma AttemptsBounded(events: seq<Event>, id: NoteId)
    requires id in Run(Init, events).store
    ensures |Run(Init, events).store[id].attempts| <= MaxAttempts
    ensures Run(Init, events).store[id].status != Failed
    ensures Run(Init, events).store[id].status == Pending ==> |Run(Init, events).store[id].attempts| < MaxAttempts
  {
    ReachableConsistent(Init, events);
    assert Consistent(Run(Init, events).store[id]);
  }

  /** Dead and delivered notes are left exactly as they are by every event except a replay of a dead note. */
  lemma TerminalNotesFrozen(s: State, e: Event, id: NoteId)
    requires id in s.store && (s.store[id].status == Dead || s.store[id].status == Delivered)
    requires !(e.ReplayNote? && e.id == id && s.store[id].status == Dead)
    ensures id in Step(s, e).store && Step(s, e).store[id] == s.store[id]
  {
    match e
    case CreateNote(req, parsers, freshId) =>
    case ReplayNote(rid) =>
    case Poll(now, outcome) =>
      NotDueUntouched(s.store, now, outcome, id);
    case FireTimer(t, now, outcome) =>
      NotDueUntouched(s.store, now, outcome, id);
  }

  /** A timer for a note that is gone or no longer pending fires without effect on the store and starts nothing. */
  lemma StaleTimerIsNoOp(s: State, t: Timer, now: Time, outcome: NoteId -> Outcome)
    requires t in s.timers && t.fireAt <= now && !RetryGuard(s.store, t.id)
    ensures Step(s, FireTimer(t, now, outcome)) == s.(timers := s.timers - multiset{t})
  {
    assert TimersFor(map[], now) == multiset{};
  }

  // ------------------------------------------------------------- scenarios

  /**
   * A due, never-tried note whose first call returns 200 is delivered with one
   * ok attempt, and no retry is scheduled.
   */
  lemma FirstSuccessDelivers(n: Note, now: Time)
    requires n.status == Pending && n.attempts == [] && n.releaseAt <= now
    ensures IsDue(n, now)
    ensures Deliver(n, Returned(200), now).note.status == Delivered
    ensures |Deliver(n, Returned(200), now).note.attempts| == 1
    ensures Deliver(n, Returned(200), now).note.deliveredAt == Some(now)
    ensures Deliver(n, Returned(200), now).retryIn == None
  {
  }

  /**
   * Three thrown failures in a row from a never-tried note: retries wait 1000
   * then 2000 ms, the third failure marks the note dead with three failed
   * attempts and schedules nothing, and the dead note is no longer due.
   */
  lemma ThreeFailuresKill(n: Note, o1: Outcome, o2: Outcome, o3: Outcome, t1: Time, t2: Time, t3: Time)
    requires n.status == Pending && n.attempts == []
    requires o1.Thrown? && o2.Thrown? && o3.Thrown?
    ensures
      var r1 := Deliver(n, o1, t1);
      var r2 := Deliver(r1.note, o2, t2);
      var r3 := Deliver(r2.note, o3, t3);
      && r1.note.status == Pending && r1.retryIn == Some(1000)
      && r2.note.status == Pending && r2.retryIn == Some(2000)
      && r3.note.status == Dead && r3.retryIn == None
      && |r3.note.attempts| == 3 && NoneOk(r3.note.attempts)
      && forall t :: !IsDue(r3.note, t)
  {
  }

  /** After a note died, replay succeeds, clears its attempts, sets it pending and enqueues a zero-delay job. */
  lemma ReplayRestartsCycle(store: Store, jobs: seq<Job>, id: NoteId)
    requires id in store && store[id].status == Dead
    ensures
      var r := Replay(store, jobs, id);
      && r.response == Requeued200(id)
      && r.store[id].status == Pending && r.store[id].attempts == []
      && r.jobs[|r.jobs| - 1] == SendNoteJob(id, Some(0))
  {
  }

  /**
   * Corollary for one note in isolation (the event-level statement is
   * `Non200PollsNeverSettle`). A returned response with a code from 201 to 299
   * is neither success nor failure: any number of them leaves the note exactly
   * as it was, still due, with no attempt recorded and no retry, so the attempt
   * budget never runs out.
   */
  lemma {:induction false} Non200SuccessNeverSettles(n: Note, codes: seq<int>, now: Time)
    requires IsDue(n, now)
    requires forall i :: 0 <= i < |codes| ==> 201 <= codes[i] <= 299
    ensures ApplyReturned(n, codes, now) == n
    ensures IsDue(ApplyReturned(n, codes, now), now)
    decreases |codes|
  {
    if codes != [] {
      assert Deliver(n, Returned(codes[0]), now).note == n;
      Non200SuccessNeverSettles(n, codes[1..], now);
    }
  }

  /**
   * The same over the event model: along any run of polling rounds in which
   * the note's own call returns 201 to 299 (other notes may fare however they
   * do), the note stays exactly as it was and no timer is ever started for it.
   */
  lemma {:induction false} Non200PollsNeverSettle(s: State, events: seq<Event>, id: NoteId)
    requires id in s.store
    requires forall i :: 0 <= i < |events| ==>
      events[i].Poll? && events[i].outcome(id).Returned? && 201 <= events[i].outcome(id).code <= 299
    ensures id in Run(s, events).store && Run(s, events).store[id] == s.store[id]
    ensures forall t :: t in Run(s, events).timers && t.id == id ==> t in s.timers
    decreases |events|
  {
    if events != [] {
      var e := events[0];
      var s1 := Step(s, e);
      if IsDue(s.store[id], e.now) {
        assert Deliver(s.store[id], e.outcome(id), e.now).note == s.store[id];
        assert id !in RetriesOf(s.store, e.now, e.outcome);
      } else {
        NotDueUntouched(s.store, e.now, e.outcome, id);
      }
      assert s1.store[id] == s.store[id];
      forall t | t in TimersFor(RetriesOf(s.store, e.now, e.outcome), e.now)
        ensures t.id != id
      {
      }
      Non200PollsNeverSettle(s1, events[1..], id);
    }
  }

  /** The note after a run of returned responses, one per polling round. */
  function ApplyReturned(n: Note, codes: seq<int>, now: Time): (n': Note)
    decreases |codes|
  {
    if codes == [] then n else ApplyReturned(Deliver(n, Returned(codes[0]), now).note, codes[1..], now)
  }

  // ------------------------------------------------------------ idempotency

  /** The idempotency header of every delivery try of one note, whatever state the note is in. */
  function KeyHeaders(id: NoteId, versions: seq<Note>): (hs: seq<Option<string>>)
    ensures |hs| == |versions|
    ensures forall i :: 0 <= i < |hs| ==> hs[i] == Some(id)
  {
    seq(|versions|, i requires 0 <= i < |versions| => Some(OutboundRequest(id, versions[i]).idempotencyKey))
  }

  /**
   * However many times one note is sent (retries, duplicate rounds, replays),
   * every try carries the same key, so a receiver that deduplicates on it runs
   * its side effect exactly once.
   */
  lemma RetriesProcessedOnce(id: NoteId, versions: seq<Note>)
    requires id != "" && |versions| >= 1
    ensures |Sink.Run(Sink.SinkState({}, []), KeyHeaders(id, versions)).processed| == 1
  {
    var hs := KeyHeaders(id, versions);
    Sink.EffectCountIsDistinctKeys(hs);
    assert Sink.HasKey(hs[0]);
    assert Sink.KeysSeen(hs) == {id};
  }
}
