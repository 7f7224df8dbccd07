/**
 * The two pure helpers of the admin notes table
 * (admin/src/components/NotesTable.tsx): content truncation and the mapping
 * from a status string to a badge variant.
 */
module NotesTable {
  import NoteModel

  /** `truncateContent`'s default limit, used for the note body. */
  const DefaultMaxLength: int := 50

  /** The limit the table passes for webhook URLs. */
  const UrlMaxLength: int := 30

  const Ellipsis: string := "..."

  /**
   * `content.length > maxLength ? content.substring(0, maxLength) + '...' : content`.
   * `substring` clamps a negative end to 0, so a negative limit leaves only the ellipsis.
   */
  function TruncateContent(content: string, maxLength: int): (r: string)
    ensures |content| <= maxLength ==> r == content
    ensures |content| > maxLength && maxLength >= 0 ==>
      |r| == maxLength + 3 && r[..maxLength] == content[..maxLength] && r[maxLength..] == Ellipsis
    ensures maxLength < 0 ==> r == Ellipsis
  {
    if |content| > maxLength then
      var end := if maxLength < 0 then 0 else maxLength;
      content[..end] + Ellipsis
    else content
  }

  /** A truncated text is never longer than the limit plus the ellipsis, and is always a prefix of the content or the content itself followed by it. */
  lemma TruncateBounds(content: string, maxLength: nat)
    ensures |TruncateContent(content, maxLength)| <= maxLength + 3
    ensures TruncateContent(content, maxLength) == content
         || TruncateContent(content, maxLength) == content[..maxLength] + Ellipsis
  {
  }

  /** The body cell: truncated at the default 50 characters. */
  function BodyCell(body: string): (r: string)
    ensures |body| <= 50 ==> r == body
    ensures |body| > 50 ==> |r| == 53 && r[..50] == body[..50] && r[50..] == Ellipsis
  {
    TruncateContent(body, DefaultMaxLength)
  }

  /** The webhook URL cell: truncated at 30 characters. */
  function UrlCell(url: string): (r: string)
    ensures |url| <= 30 ==> r == url
    ensures |url| > 30 ==> |r| == 33 && r[..30] == url[..30] && r[30..] == Ellipsis
  {
    TruncateContent(url, UrlMaxLength)
  }

  datatype BadgeVariant = Default | Secondary | Destructive | Outline

  /** ASCII upper case to lower case; every other character is left alone. */
  function LowerChar(c: char): (d: char)
    ensures 'A' <= c <= 'Z' ==> d as int == c as int + 32
    ensures !('A' <= c <= 'Z') ==> d == c
    ensures !('A' <= d <= 'Z')
  {
    if 'A' <= c <= 'Z' then (c as int + 32) as char else c
  }

  function ToLower(s: string): (r: string)
    ensures |r| == |s| && forall i :: 0 <= i < |s| ==> r[i] == LowerChar(s[i])
  {
    seq(|s|, i requires 0 <= i < |s| => LowerChar(s[i]))
  }

  /** Lower-casing twice is lower-casing once. */
  lemma ToLowerIdempotent(s: string)
    ensures ToLower(ToLower(s)) == ToLower(s)
  {
    var once := ToLower(s);
    assert forall i :: 0 <= i < |once| ==> LowerChar(once[i]) == once[i];
  }

  /** `getStatusBadgeVariant`: switch on the lower-cased status, with `outline` as the default. */
  function StatusBadgeVariant(status: string): (v: BadgeVariant)
    ensures v == Default <==> ToLower(status) == "sent"
    ensures v == Secondary <==> ToLower(status) == "pending"
    ensures v == Destructive <==> ToLower(status) == "failed"
    ensures v == Outline <==> ToLower(status) !in {"sent", "pending", "failed"}
  {
    var lowered := ToLower(status);
    if lowered == "sent" then Default
    else if lowered == "pending" then Secondary
    else if lowered == "failed" then Destructive
    else Outline
  }

  /** The variant depends only on the lower-cased status: inputs differing only in case share it. */
  lemma BadgeIgnoresCase(a: string, b: string)
    requires ToLower(a) == ToLower(b)
    ensures StatusBadgeVariant(a) == StatusBadgeVariant(b)
    ensures StatusBadgeVariant(a) == StatusBadgeVariant(ToLower(a))
  {
    ToLowerIdempotent(a);
  }

  /**
   * The variants the stored statuses get: pending is secondary, failed is
   * destructive, delivered and dead fall through to outline, and none is
   * `default`, whose "sent" is not a status the store can hold.
   */
  lemma BadgeOfStoredStatus(s: NoteModel.Status)
    ensures StatusBadgeVariant(NoteModel.StatusName(s)) ==
      match s
      case Pending => Secondary
      case Failed => Destructive
      case Delivered => Outline
      case Dead => Outline
    ensures StatusBadgeVariant(NoteModel.StatusName(s)) != Default
  {
    var name := NoteModel.StatusName(s);
    assert ToLower(name) == name;
  }
}
