/** server/middleware/auth.js: `requireAuth`. The token comes from the
    Authorization header with the scheme text removed (the bearer form of
    section 2.1 of RFC 6750), or from the `token` query parameter. */
module Auth {
  import opened Js
  import opened Text

  /** The middleware either answers 401 or calls `next()`. */
  datatype Decision = Unauthorized | Next

  const BearerPrefix := "Bearer "

  /** `req.headers.authorization?.replace('Bearer ', '') || req.query.token`. */
  function RequestToken(header: Option<string>, queryToken: Option<string>): (t: Option<string>)
    ensures header.Some? && ReplaceFirst(header.value, BearerPrefix, "") != "" ==>
              t == Some(ReplaceFirst(header.value, BearerPrefix, ""))
    ensures header.None? || ReplaceFirst(header.value, BearerPrefix, "") == "" ==> t == queryToken
  {
    var fromHeader := if header.Some? then Some(ReplaceFirst(header.value, BearerPrefix, "")) else None;
    if Truthy(fromHeader) then fromHeader else queryToken
  }

  /** `requireAuth`. `authToken` is `process.env.AUTH_TOKEN`. */
  function RequireAuth(header: Option<string>, queryToken: Option<string>, authToken: Option<string>): (d: Decision)
    ensures d == Next <==> Truthy(RequestToken(header, queryToken)) && RequestToken(header, queryToken) == authToken
    ensures authToken.None? || authToken == Some("") ==> d == Unauthorized
    ensures !Truthy(RequestToken(header, queryToken)) ==> d == Unauthorized
  {
    var token := RequestToken(header, queryToken);
    if !Truthy(token) || token != authToken then Unauthorized else Next
  }

  /** A header "Bearer <k>" with the configured non-empty key is let through,
      whatever the query says. */
  lemma BearerHeaderAccepted(k: string, queryToken: Option<string>)
    requires k != ""
    ensures RequireAuth(Some(BearerPrefix + k), queryToken, Some(k)) == Next
  {
    var h := BearerPrefix + k;
    assert OccursAt(h, BearerPrefix, 0);
    assert IndexOf(h, BearerPrefix) == 0;
    assert h[|BearerPrefix|..] == k;
    assert ReplaceFirst(h, BearerPrefix, "") == k;
  }

  /** Without an Authorization header the query token alone decides. */
  lemma QueryTokenAccepted(k: string)
    requires k != ""
    ensures RequireAuth(None, Some(k), Some(k)) == Next
    ensures forall other :: other != k ==> RequireAuth(None, Some(other), Some(k)) == Unauthorized
  {
  }

  /** A header that is only the scheme yields "", so the query token is
      used instead. */
  lemma BareSchemeFallsBackToQuery(queryToken: Option<string>)
    ensures RequestToken(Some(BearerPrefix), queryToken) == queryToken
  {
    assert OccursAt(BearerPrefix, BearerPrefix, 0);
    assert IndexOf(BearerPrefix, BearerPrefix) == 0;
    assert ReplaceFirst(BearerPrefix, BearerPrefix, "") == "";
  }
}
