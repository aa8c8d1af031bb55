/**
 * The bearer-header helper of the authentication utilities. Password hashing
 * and token signing are cryptographic primitives; the callers of this model
 * receive them as functions.
 */
module Auth {
  import opened Common

  const BearerPrefix: string := "Bearer "

  /**
   * `extractTokenFromHeader`: the rest of the header after an exact,
   * case-sensitive "Bearer " prefix; nothing for a missing or empty header.
   */
  function ExtractTokenFromHeader(authHeader: Option<string>): (r: Option<string>)
    ensures authHeader.None? || authHeader.value == "" ==> r.None?
    ensures r.Some? <==> authHeader.Some? && |authHeader.value| >= |BearerPrefix|
                         && authHeader.value[..|BearerPrefix|] == BearerPrefix
    ensures r.Some? ==> |r.value| == |authHeader.value| - 7
                        && authHeader.value == BearerPrefix + r.value
  {
    if authHeader.None? || authHeader.value == "" then None
    else if |authHeader.value| < |BearerPrefix| || authHeader.value[..|BearerPrefix|] != BearerPrefix then None
    else Some(authHeader.value[|BearerPrefix|..])
  }

  /** Prefixing any token, even the empty one, with "Bearer " gives it back. */
  lemma ExtractTokenRoundTrip(token: string)
    ensures ExtractTokenFromHeader(Some(BearerPrefix + token)) == Some(token)
  {
    assert (BearerPrefix + token)[..|BearerPrefix|] == BearerPrefix;
    assert (BearerPrefix + token)[|BearerPrefix|..] == token;
  }
}
