/**
 * The stored shape of a note: its delivery status, the attempt history and the
 * defaults a freshly created document receives (api/src/models/Note.ts).
 */
module NoteModel {
  import opened Wrappers

  /** A note id as the services see it: the document's `_id.toString()`. */
  type NoteId = string

  /** Milliseconds since the epoch; `Date` values are modelled by their time value. */
  type Time = int

  /** The status enum of the schema; no other value can be stored. */
  datatype Status = Pending | Delivered | Failed | Dead

  /** One delivery try. `at`, `statusCode` and `ok` are required; `error` is optional. */
  datatype Attempt = Attempt(at: Time, statusCode: int, ok: bool, error: Option<string>)

  /** A stored note. `deliveredAt` is `None` for the schema's `null` default. */
  datatype Note = Note(
    title: string,
    body: string,
    releaseAt: Time,
    webhookUrl: string,
    status: Status,
    attempts: seq<Attempt>,
    deliveredAt: Option<Time>)

  /** The record store: one document per id. */
  type Store = map<NoteId, Note>

  /** The enum's string spelling, as it appears in queries and JSON. */
  function StatusName(s: Status): (name: string) {
    match s
    case Pending => "pending"
    case Delivered => "delivered"
    case Failed => "failed"
    case Dead => "dead"
  }

  /** Reads a status string back; anything outside the enum is rejected. */
  function ParseStatus(name: string): (r: Option<Status>)
    ensures r.Some? <==> name in {"pending", "delivered", "failed", "dead"}
  {
    if name == "pending" then Some(Pending)
    else if name == "delivered" then Some(Delivered)
    else if name == "failed" then Some(Failed)
    else if name == "dead" then Some(Dead)
    else None
  }

  /** Spelling a status and reading it back gives the status; reading succeeds only on a spelling. */
  lemma StatusNameRoundTrip(s: Status, name: string)
    ensures ParseStatus(StatusName(s)) == Some(s)
    ensures ParseStatus(name) == Some(s) ==> StatusName(s) == name
  {
  }

  /** Distinct statuses have distinct spellings, so a filter on the spelling selects one status. */
  lemma StatusNameInjective(s: Status, t: Status)
    ensures StatusName(s) == StatusName(t) ==> s == t
  {
    StatusNameRoundTrip(s, StatusName(s));
    StatusNameRoundTrip(t, StatusName(t));
  }

  /**
   * Mongoose's `required: true` on a String rejects both a missing value and
   * the empty string; the four payload fields are required.
   */
  predicate RequiredFieldsPresent(n: Note) {
    n.title != "" && n.body != "" && n.webhookUrl != ""
  }

  /** A document built from the given payload with the schema's defaults filled in. */
  function NewNote(title: string, body: string, releaseAt: Time, webhookUrl: string): (n: Note)
    ensures n.status == Pending && n.attempts == [] && n.deliveredAt == None
    ensures n.title == title && n.body == body && n.releaseAt == releaseAt && n.webhookUrl == webhookUrl
    ensures title != "" && body != "" && webhookUrl != "" <==> RequiredFieldsPresent(n)
  {
    Note(title, body, releaseAt, webhookUrl, Pending, [], None)
  }

  /** The payload fields that no step after creation may change. */
  predicate SamePayload(a: Note, b: Note) {
    a.title == b.title && a.body == b.body && a.releaseAt == b.releaseAt && a.webhookUrl == b.webhookUrl
  }

  /** No attempt in the list succeeded. */
  predicate NoneOk(attempts: seq<Attempt>) {
    forall i :: 0 <= i < |attempts| ==> !attempts[i].ok
  }
}
