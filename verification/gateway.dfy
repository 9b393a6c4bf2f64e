/** The gateway's reverse proxy: choosing the backend by path prefix, building the target URL,
    rewriting the headers, and relaying the backend's answer. The HTTP exchange itself is left out. */
module Gateway {
  import opened Wrappers
  import opened Auth
  import opened Strings
  import Lookup

  /** The three backend base URLs (read from the gateway's settings). */
  datatype Backends = Backends(users: string, items: string, orders: string)

  /** The methods the three proxy routes accept. */
  const PROXY_METHODS: set<string> := {"GET", "POST", "PUT", "DELETE", "PATCH"}

  type Headers = seq<(string, string)>

  /** An inbound request: method, path, query string, header pairs as received, raw body. */
  datatype Inbound = Inbound(verb: string, path: string, query: string, headers: Headers, body: seq<bv8>)

  /** The request the gateway sends to the backend. */
  datatype Outbound = Outbound(verb: string, url: string, headers: map<string, string>, body: seq<bv8>)

  /** A matched proxy route: the backend base URL and the captured `{path}`. */
  datatype Target = Target(base: string, path: string)

  /** `/users{path:path}`, `/items{path:path}`, `/orders{path:path}`: a plain prefix match (not
      bounded by a slash), for the five proxied methods only. */
  function ProxyRoute(b: Backends, verb: string, path: string): (t: Option<Target>)
    ensures t.Some? <==> verb in PROXY_METHODS
                         && (StartsWith(path, "/users") || StartsWith(path, "/items") || StartsWith(path, "/orders"))
    ensures t.Some? ==> || (t.value.base == b.users && path == "/users" + t.value.path)
                        || (t.value.base == b.items && path == "/items" + t.value.path)
                        || (t.value.base == b.orders && path == "/orders" + t.value.path)
  {
    if verb !in PROXY_METHODS then None
    else if StartsWith(path, "/users") then Some(Target(b.users, path[6..]))
    else if StartsWith(path, "/items") then Some(Target(b.items, path[6..]))
    else if StartsWith(path, "/orders") then Some(Target(b.orders, path[7..]))
    else None
  }

  /** `f"{BASE}{path or '/'}"`. */
  function TargetUrl(t: Target): (url: string)
    ensures StartsWith(url, t.base)
    ensures url[|t.base|..] == if t.path == "" then "/" else t.path
  {
    t.base + (if t.path == "" then "/" else t.path)
  }

  predicate IsQueryMark(c: char) {
    c == '?'
  }

  /** The URL up to the first `?`, and what follows it (empty when there is no `?`). */
  function SplitQuery(u: string): (string, string) {
    var i := Lookup.FirstIndex(u, IsQueryMark);
    if i < |u| then (u[..i], u[i + 1..]) else (u, "")
  }

  /** `if qs: url = f"{url}?{qs}"`: a URL without `?` and the query string are recovered from the
      result, and an empty query leaves the URL as it was. */
  function WithQuery(url: string, qs: string): (r: string)
    ensures qs == "" ==> r == url
    ensures '?' !in url ==> SplitQuery(r) == (url, qs)
  {
    if qs == "" then url
    else
      var r := url + "?" + qs;
      assert IsQueryMark(r[|url|]) && r[..|url|] == url;
      assert '?' !in url ==> Lookup.FirstIndex(r, IsQueryMark) == |url|;
      assert r[..|url|] == url && r[|url| + 1..] == qs;
      r
  }

  /** `{k: v for k, v in request.headers.items() if k.lower() != "host"}`, built pair by pair. */
  function DropHost(items: Headers): (m: map<string, string>)
    ensures m.Keys <= set i | 0 <= i < |items| :: items[i].0
    decreases |items|
  {
    if items == [] then map[]
    else
      var last := items[|items| - 1];
      var m := DropHost(items[..|items| - 1]);
      if Lower(last.0) == "host" then m else m[last.0 := last.1]
  }

  /** A name is kept exactly when it is not `host` in any case and some pair carries it. */
  lemma {:induction false} DropHostKey(items: Headers, k: string)
    ensures k in DropHost(items) <==> Lower(k) != "host" && exists i :: 0 <= i < |items| && items[i].0 == k
    decreases |items|
  {
    if items != [] {
      var init := items[..|items| - 1];
      DropHostKey(init, k);
      if exists i :: 0 <= i < |init| && init[i].0 == k {
        var i :| 0 <= i < |init| && init[i].0 == k;
        assert items[i].0 == k;
      }
      if exists i :: 0 <= i < |items| && items[i].0 == k {
        var i :| 0 <= i < |items| && items[i].0 == k;
        if i < |init| { assert init[i].0 == k; }
      }
    }
  }

  /** A kept name has the value of its last pair: a repeated header keeps its last value. */
  lemma {:induction false} DropHostLastValue(items: Headers, k: string)
    requires k in DropHost(items)
    ensures exists i :: && 0 <= i < |items| && items[i] == (k, DropHost(items)[k])
                        && forall j :: i < j < |items| ==> items[j].0 != k
    decreases |items|
  {
    var init := items[..|items| - 1];
    var last := items[|items| - 1];
    DropHostKey(items, k);
    if last.0 == k {
      assert items[|items| - 1] == (k, DropHost(items)[k]);
    } else {
      assert k in DropHost(init);
      DropHostLastValue(init, k);
      var i :| && 0 <= i < |init| && init[i] == (k, DropHost(init)[k])
               && forall j :: i < j < |init| ==> init[j].0 != k;
      assert items[i] == init[i];
      assert forall j :: i < j < |items| ==> items[j].0 != k by {
        forall j | i < j < |items| ensures items[j].0 != k {
          if j < |init| { assert items[j] == init[j]; }
        }
      }
    }
  }

  /** The headers sent to the backend: the inbound ones without `host`, plus the service token. */
  function ForwardHeaders(items: Headers): (h: map<string, string>)
    ensures TOKEN_HEADER in h && h[TOKEN_HEADER] == SECRET
  {
    AddServiceAuth(DropHost(items))
  }

  /** No forwarded header is named `host` in any case; every other inbound name is forwarded with
      the value of its last pair; the token is the only name added. */
  lemma ForwardHeadersKey(items: Headers, k: string)
    ensures k in ForwardHeaders(items) ==> Lower(k) != "host"
    ensures k != TOKEN_HEADER ==>
              (k in ForwardHeaders(items) <==> Lower(k) != "host" && exists i :: 0 <= i < |items| && items[i].0 == k)
    ensures k in ForwardHeaders(items) && k != TOKEN_HEADER ==>
              exists i :: && 0 <= i < |items| && items[i] == (k, ForwardHeaders(items)[k])
                          && forall j :: i < j < |items| ==> items[j].0 != k
  {
    assert |Lower(TOKEN_HEADER)| != |"host"|;
    DropHostKey(items, k);
    if k in DropHost(items) && k != TOKEN_HEADER {
      DropHostLastValue(items, k);
    }
  }

  /** `users_proxy` / `items_proxy` / `orders_proxy` and `_proxy` up to the send: `None` when no
      proxy route takes the request. */
  function Forward(b: Backends, req: Inbound): (out: Option<Outbound>)
    ensures out.Some? <==> ProxyRoute(b, req.verb, req.path).Some?
    ensures out.Some? ==> && out.value.verb == req.verb
                          && out.value.body == req.body
                          && out.value.headers == ForwardHeaders(req.headers)
                          && out.value.url == WithQuery(TargetUrl(ProxyRoute(b, req.verb, req.path).value), req.query)
  {
    match ProxyRoute(b, req.verb, req.path)
    case None => None
    case Some(t) => Some(Outbound(req.verb, WithQuery(TargetUrl(t), req.query), ForwardHeaders(req.headers), req.body))
  }

  /** The backend's answer: status, raw body, header pairs. */
  datatype BackendResponse = BackendResponse(status: int, content: seq<bv8>, headers: Headers)

  /** What the gateway answers: status, body and media type. */
  datatype Relayed = Relayed(status: int, content: seq<bv8>, mediaType: Option<string>)

  /** The values of every header named `name` in any case, in order. */
  function HeaderValues(items: Headers, name: string): (vs: seq<string>)
    ensures |vs| <= |items|
    ensures vs == [] <==> forall i :: 0 <= i < |items| ==> Lower(items[i].0) != Lower(name)
    ensures forall v :: v in vs ==> exists i :: 0 <= i < |items| && Lower(items[i].0) == Lower(name) && items[i].1 == v
  {
    if items == [] then []
    else (if Lower(items[0].0) == Lower(name) then [items[0].1] else []) + HeaderValues(items[1..], name)
  }

  /** `", ".join(vs)`. */
  function CommaJoin(vs: seq<string>): string
    requires |vs| >= 1
  {
    if |vs| == 1 then vs[0] else vs[0] + ", " + CommaJoin(vs[1..])
  }

  /** `resp.headers.get("content-type")`: the content-type values joined, or `None`. */
  function ContentType(items: Headers): (ct: Option<string>)
    ensures ct.None? <==> forall i :: 0 <= i < |items| ==> Lower(items[i].0) != "content-type"
  {
    assert Lower("content-type") == "content-type";
    var vs := HeaderValues(items, "content-type");
    if vs == [] then None else Some(CommaJoin(vs))
  }

  /** Whether pair `p` carries the name `name` in any case. */
  predicate NameIs(p: (string, string), name: string) {
    Lower(p.0) == Lower(name)
  }

  /** How many pairs carry the name `name` in any case. */
  function MatchCount(items: Headers, name: string): nat {
    if items == [] then 0 else (if NameIs(items[0], name) then 1 else 0) + MatchCount(items[1..], name)
  }

  /** Every matching pair's value is collected, at the position given by the number of matching
      pairs before it, and nothing else is: the values of the matching headers, in header order. */
  lemma {:induction false} HeaderValuesOrder(items: Headers, name: string)
    ensures |HeaderValues(items, name)| == MatchCount(items, name)
    ensures forall i :: 0 <= i < |items| && NameIs(items[i], name) ==>
              MatchCount(items[..i], name) < |HeaderValues(items, name)| &&
              HeaderValues(items, name)[MatchCount(items[..i], name)] == items[i].1
  {
    if items != [] {
      HeaderValuesOrder(items[1..], name);
      var head := if NameIs(items[0], name) then [items[0].1] else [];
      assert HeaderValues(items, name) == head + HeaderValues(items[1..], name);
      forall i | 0 <= i < |items| && NameIs(items[i], name)
        ensures MatchCount(items[..i], name) < |HeaderValues(items, name)|
        ensures HeaderValues(items, name)[MatchCount(items[..i], name)] == items[i].1
      {
        if i > 0 {
          assert items[..i][1..] == items[1..][..i-1];
          assert MatchCount(items[..i], name) == |head| + MatchCount(items[1..][..i-1], name);
          assert items[1..][i-1] == items[i];
        }
      }
    }
  }

  /** A header appended after the others adds its value at the end exactly when its name matches. */
  lemma {:induction false} HeaderValuesAppend(items: Headers, p: (string, string), name: string)
    ensures HeaderValues(items + [p], name) ==
            HeaderValues(items, name) + (if NameIs(p, name) then [p.1] else [])
  {
    if items == [] {
      assert [p][1..] == [];
    } else {
      assert (items + [p])[1..] == items[1..] + [p];
      HeaderValuesAppend(items[1..], p, name);
    }
  }

  /** Joining one more value appends `", "` and that value. */
  lemma {:induction false} CommaJoinAppend(vs: seq<string>, v: string)
    requires |vs| >= 1
    ensures CommaJoin(vs + [v]) == CommaJoin(vs) + ", " + v
  {
    if |vs| > 1 {
      assert (vs + [v])[1..] == vs[1..] + [v];
      CommaJoinAppend(vs[1..], v);
    } else {
      assert (vs + [v])[1..] == [v];
    }
  }

  /** The media type read header by header: a content-type header (in any case) starts the value
      or extends it with `", "` and its own value; any other header leaves it as it was. With
      `ContentType([]) == None` this fixes the media type for every header list. */
  lemma ContentTypeAppend(items: Headers, p: (string, string))
    ensures ContentType(items + [p]) ==
            if Lower(p.0) != "content-type" then ContentType(items)
            else if ContentType(items).None? then Some(p.1)
            else Some(ContentType(items).value + ", " + p.1)
  {
    assert Lower("content-type") == "content-type";
    HeaderValuesAppend(items, p, "content-type");
    var vs := HeaderValues(items, "content-type");
    if !NameIs(p, "content-type") {
      assert HeaderValues(items + [p], "content-type") == vs;
    } else if vs == [] {
      assert HeaderValues(items + [p], "content-type") == [p.1];
    } else {
      CommaJoinAppend(vs, p.1);
    }
  }

  /** When exactly one header is a content-type header, its value is relayed as the media type. */
  lemma {:induction false} ContentTypeSingle(items: Headers, j: nat)
    requires j < |items| && Lower(items[j].0) == "content-type"
    requires forall i :: 0 <= i < |items| && i != j ==> Lower(items[i].0) != "content-type"
    ensures ContentType(items) == Some(items[j].1)
  {
    assert Lower("content-type") == "content-type";
    SingleMatch(items, j, "content-type");
  }

  /** The values collected when exactly the pair at `j` matches. */
  lemma {:induction false} SingleMatch(items: Headers, j: nat, name: string)
    requires j < |items| && NameIs(items[j], name)
    requires forall i :: 0 <= i < |items| && i != j ==> !NameIs(items[i], name)
    ensures HeaderValues(items, name) == [items[j].1]
  {
    if j == 0 {
      assert forall i :: 0 <= i < |items[1..]| ==> !NameIs(items[1..][i], name) by {
        forall i | 0 <= i < |items[1..]| ensures !NameIs(items[1..][i], name) {
          assert items[1..][i] == items[i + 1];
        }
      }
    } else {
      forall i | 0 <= i < |items[1..]| && i != j - 1 ensures !NameIs(items[1..][i], name) {
        assert items[1..][i] == items[i + 1];
      }
      SingleMatch(items[1..], j - 1, name);
    }
  }

  /** `Response(content=..., status_code=..., media_type=...)`. */
  function Relay(resp: BackendResponse): (r: Relayed)
    ensures r.status == resp.status && r.content == resp.content
    ensures r.mediaType == ContentType(resp.headers)
  {
    Relayed(resp.status, resp.content, ContentType(resp.headers))
  }
}
