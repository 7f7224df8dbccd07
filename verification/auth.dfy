/**
 * The bearer-token guard in front of the notes API (api/src/middlerware/auth.ts).
 * The configured token is a parameter; `None` is an unset environment variable.
 */
module Auth {
  import opened Wrappers

  datatype Decision = Unauthorized401 | Next

  /** The template literal `Bearer ${ADMIN_TOKEN}`: an unset token is spelled "undefined". */
  function ExpectedHeader(adminToken: Option<string>): (h: string)
    ensures |h| >= 7 && h[..7] == "Bearer "
    ensures adminToken.Some? ==> h[7..] == adminToken.value
    ensures adminToken.None? ==> h[7..] == "undefined"
  {
    "Bearer " + adminToken.GetOr("undefined")
  }

  /**
   * `authcheck`: a missing or empty header, or any header not exactly equal to
   * the expected one (no trimming, no case folding), is a 401 and `next` is
   * not called; an exactly equal header calls `next` and sends nothing.
   */
  function AuthCheck(header: Option<string>, adminToken: Option<string>): (d: Decision)
    ensures d == Next <==> header == Some(ExpectedHeader(adminToken))
    ensures header.None? ==> d == Unauthorized401
  {
    if header.None? || header.value == "" || header.value != ExpectedHeader(adminToken) then Unauthorized401
    else Next
  }

  /** Only the exact header gets through: one extra character or a changed letter is refused. */
  lemma ExactMatchOnly(adminToken: Option<string>, c: char)
    ensures AuthCheck(Some(ExpectedHeader(adminToken)), adminToken) == Next
    ensures AuthCheck(Some(ExpectedHeader(adminToken) + [c]), adminToken) == Unauthorized401
    ensures AuthCheck(Some("bearer " + adminToken.GetOr("undefined")), adminToken) == Unauthorized401
  {
    var e := ExpectedHeader(adminToken);
    assert |e + [c]| != |e|;
    assert ("bearer " + adminToken.GetOr("undefined"))[0] != e[0];
  }

  /** With the token unset, the literal header "Bearer undefined" is let through. */
  lemma UnsetTokenAcceptsUndefined()
    ensures AuthCheck(Some("Bearer undefined"), None) == Next
  {
  }

  /** Fail-closed variant: with no token or an empty token configured, nothing is let through. */
  function AuthCheckFailClosed(header: Option<string>, adminToken: Option<string>): (d: Decision)
    ensures d == Next <==> adminToken.Some? && adminToken.value != "" && header == Some("Bearer " + adminToken.value)
  {
    if adminToken.None? || adminToken.value == "" then Unauthorized401
    else AuthCheck(header, adminToken)
  }

  /** The fail-closed variant agrees with `AuthCheck` whenever a non-empty token is configured. */
  lemma FailClosedAgreesWhenConfigured(header: Option<string>, token: string)
    requires token != ""
    ensures AuthCheckFailClosed(header, Some(token)) == AuthCheck(header, Some(token))
    ensures AuthCheckFailClosed(header, None) == Unauthorized401
  {
  }
}
