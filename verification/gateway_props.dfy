/** What the gateway's forwarding guarantees, on the proxy routes as declared. */
module GatewayProps {
  import opened Wrappers
  import opened Auth
  import opened Strings
  import opened Gateway

  /** The prefix match is not bounded by a slash: `/usersX` goes to the users backend as `X`. */
  lemma PrefixNotSlashBounded(b: Backends, verb: string)
    requires verb in PROXY_METHODS
    ensures ProxyRoute(b, verb, "/usersX") == Some(Target(b.users, "X"))
    ensures TargetUrl(Target(b.users, "X")) == b.users + "X"
  {
  }

  /** A bare prefix forwards to the backend's root `/`. */
  lemma BarePrefixForwardsRoot(b: Backends, verb: string)
    requires verb in PROXY_METHODS
    ensures ProxyRoute(b, verb, "/orders") == Some(Target(b.orders, ""))
    ensures TargetUrl(Target(b.orders, "")) == b.orders + "/"
  {
    assert "/orders"[..6][1] != "/users"[1] && "/orders"[..6][1] != "/items"[1];
    assert StartsWith("/orders", "/orders");
  }

  /** A request to `/items/42` reaches the items backend's `/42` with the same method and body,
      the service token set and no `host` header. */
  lemma ItemsRequestForwarded(b: Backends, headers: Headers, body: seq<bv8>)
    ensures var out := Forward(b, Inbound("GET", "/items/42", "", headers, body));
            && out == Some(Outbound("GET", b.items + "/42", ForwardHeaders(headers), body))
            && out.value.headers[TOKEN_HEADER] == SECRET
            && "host" !in out.value.headers
  {
    assert "/items/42"[..6][1] != "/users"[1];
    assert StartsWith("/items/42", "/items") && "/items/42"[6..] == "/42";
    assert ProxyRoute(b, "GET", "/items/42") == Some(Target(b.items, "/42"));
    assert WithQuery(TargetUrl(Target(b.items, "/42")), "") == b.items + "/42";
    assert Lower("host") == "host";
    ForwardHeadersKey(headers, "host");
  }

  /** The URL sent splits at its first `?` into the target URL and the query string exactly as
      received, when neither the backend base nor the path contains a `?`. */
  lemma ForwardedUrlKeepsQuery(b: Backends, req: Inbound)
    requires Forward(b, req).Some?
    requires '?' !in b.users && '?' !in b.items && '?' !in b.orders && '?' !in req.path
    ensures var t := ProxyRoute(b, req.verb, req.path).value;
            SplitQuery(Forward(b, req).value.url) == (TargetUrl(t), req.query)
  {
  }

  /** Methods outside the five, and paths outside the three prefixes, are not forwarded. */
  lemma OnlyProxyRoutesForward(b: Backends, req: Inbound)
    requires req.verb !in PROXY_METHODS
             || !(StartsWith(req.path, "/users") || StartsWith(req.path, "/items") || StartsWith(req.path, "/orders"))
    ensures Forward(b, req) == None
  {
  }

  /** A single content-type header is relayed as it is, together with status and body. */
  lemma RelaySingleContentType(status: int, content: seq<bv8>, ct: string)
    ensures Relay(BackendResponse(status, content, [("content-type", ct)])) == Relayed(status, content, Some(ct))
  {
  }
}
