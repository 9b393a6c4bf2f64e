/** The shared service credential: attaching it to outbound headers and checking it on inbound calls. */
module Auth {
  import opened Wrappers
  import opened Web

  /** `SERVICE_SECRET` when unset in the environment. */
  const SECRET: string := "dev-secret"

  const TOKEN_HEADER: string := "X-Service-Token"

  /** `add_service_auth`: a copy of the headers with the token header set to the secret. The
      argument is a value, so the caller's map cannot change. */
  function AddServiceAuth(headers: map<string, string>): (r: map<string, string>)
    ensures TOKEN_HEADER in r && r[TOKEN_HEADER] == SECRET
    ensures r.Keys == headers.Keys + {TOKEN_HEADER}
    ensures forall k :: k in headers && k != TOKEN_HEADER ==> r[k] == headers[k]
  {
    headers[TOKEN_HEADER := SECRET]
  }

  /** Attaching twice is attaching once, and a token already present is overwritten. */
  lemma AddServiceAuthIdempotent(headers: map<string, string>)
    ensures AddServiceAuth(AddServiceAuth(headers)) == AddServiceAuth(headers)
    ensures TOKEN_HEADER in headers ==> AddServiceAuth(headers)[TOKEN_HEADER] == SECRET
  {
  }

  /** `verify_service_token`: passes exactly when the presented header equals the secret; an absent
      header (`None`) never does. */
  function VerifyServiceToken(token: Option<string>): (r: Option<HttpException>)
    ensures r.None? <==> token == Some(SECRET)
    ensures r.Some? ==> r.value.status == 401
  {
    if token != Some(SECRET) then Some(HttpException(401, "Invalid service token")) else None
  }
}
