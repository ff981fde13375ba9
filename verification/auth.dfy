/** The bearer-token gate in front of every route of the HTTP server
    (backend/src/index.ts): with no API token configured every request
    passes; otherwise only a request whose `Authorization` header is exactly
    `Bearer ` followed by the token does, and every other one is answered
    401. */
module Auth {
  import opened Wrappers
  import opened Strings

  const BearerPrefix: string := "Bearer "
  const Unauthorized: nat := 401

  datatype Decision = Forward | Reject(status: nat, error: string)

  /** The middleware. An unset token is the empty string; a missing header is
      `None`. */
  function Gate(apiToken: string, authorization: Option<string>): (r: Decision)
    ensures r.Forward? <==> apiToken == "" || authorization == Some(BearerPrefix + apiToken)
    ensures r.Reject? ==> r == Reject(Unauthorized, "unauthorized")
  {
    if apiToken == "" then Forward
    else if authorization.None? || authorization.value == "" then Reject(Unauthorized, "unauthorized")
    else if authorization.value != BearerPrefix + apiToken then Reject(Unauthorized, "unauthorized")
    else Forward
  }

  /** With a token configured, a request without the header is refused. */
  lemma MissingHeaderRejected(apiToken: string)
    requires apiToken != ""
    ensures Gate(apiToken, None) == Reject(Unauthorized, "unauthorized")
  {
  }

  /** The bare token, without the scheme, is refused. */
  lemma BareTokenRejected(apiToken: string)
    requires apiToken != ""
    ensures Gate(apiToken, Some(apiToken)).Reject?
  {
    assert |BearerPrefix + apiToken| > |apiToken|;
  }

  /** The comparison is exact: a header that only starts with the expected
      value (trailing text, say) is refused. */
  lemma ExtendedHeaderRejected(apiToken: string, extra: string)
    requires apiToken != "" && extra != ""
    ensures Gate(apiToken, Some(BearerPrefix + apiToken + extra)).Reject?
  {
    assert |BearerPrefix + apiToken + extra| > |BearerPrefix + apiToken|;
  }

  /** Exactly one header value opens the gate when a token is set: two
      headers that both pass are the same header. */
  lemma OnlyOneKey(apiToken: string, h1: string, h2: string)
    requires apiToken != ""
    requires Gate(apiToken, Some(h1)).Forward? && Gate(apiToken, Some(h2)).Forward?
    ensures h1 == h2 && StartsWith(h1, BearerPrefix)
  {
    assert (BearerPrefix + apiToken)[..|BearerPrefix|] == BearerPrefix;
  }

  /** Without a token the header is not even looked at. */
  lemma OpenWithoutToken(authorization: Option<string>)
    ensures Gate("", authorization) == Forward
  {
  }
}
