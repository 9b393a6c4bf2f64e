# Microservices inter-service layer, modelled in Dafny

This project models the inter-service core of a small Python backend. A gateway proxies requests to
three CRUD services (users, items, orders). The parts modelled are:

- **The resilient HTTP client** (`common/http.py`). A per-host circuit breaker keeps two dictionaries,
  a failure count and an "open until" time per host. Three failures open the breaker for 10 s and
  reset the count; a success clears both entries. `request` checks the breaker once, then makes up to
  three attempts with linear backoff (0.5 s, 1 s, 1.5 s) and raises the last error if all fail.
  Modelled as the class `Http.Breaker`, whose two `map<string, int>` fields are updated in place.
  Its methods are specified by pure functions over a `BreakerState` value (`AfterFailure`,
  `AfterSuccess`, `RetryLoop`, `RequestCall`), and the guarantees are proved about those functions
  in `HttpProps`.
- **The service credential** (`common/auth.py`): copying a header map with the token set, and the
  exact-match check that answers 401.
- **The gateway** (`gateway/app/main.py`). It chooses the backend by path prefix and builds
  `base + (path or "/")` plus `"?" + query`. It drops every `host` header, injects the token, and
  relays status, body and content type.
- **The order-creation saga** (`orders-service/app/routers.py`). The saga checks the token and the
  payload, then looks up the user, posts the stock reservation, and stores the order. It is
  `OrdersRouter.CreateOrderPlan` (the calls made and where the saga stops) plus the method
  `OrdersRouter.CreateOrder`, which writes to the orders table. The code is modelled as written: the
  two downstream calls use a plain client, with no breaker and no token. The reservation reply is
  checked only for 404 and 409. A failed write answers 400 and nothing releases the reservation.
- **The three tables and their routers** (`*/app/crud.py`, `users-service/app/routers.py`,
  `items-service/app/routers.py`). Each table is a class holding a `seq` of rows. Users and items use
  check-then-insert on email and SKU; orders are appended with no check. The routers validate field
  lengths (422), map `ValueError` to 409 and a missing user to 404.

Time is an integer number of milliseconds. The network is an input: each attempt carries the reply
it gets (a status code or a transport error) and the clock reading at which `_record_failure` reads
`time.time()`. Sleeps are returned as the list of their durations.

## Model

| member | source | states |
|---|---|---|
| `Http.IsOpen` | common/http.py:10-12 | open exactly while the clock is before the host's open-until time (default 0); a host with no entry is closed at every non-negative time |
| `Http.AfterFailure` | common/http.py:15-19 | only the host's entries change; a count below 3 becomes (count + 1) mod 3; reaching 3 sets open-until to now + 10 s, otherwise open-until is untouched |
| `Http.AfterSuccess` | common/http.py:22-24 | only the host's entries change; both become 0, so the breaker is closed at every non-negative time |
| `Http.Host` | common/http.py:29 | the breaker key is absent (IndexError) exactly when the URL has fewer than two slashes; a present key contains no slash |
| `Strings.Split` | common/http.py:29 | `str.split` gives one more field than there are separators, and no field contains the separator |
| `Strings.Lower` | gateway/app/main.py:39 | `str.lower()` keeps the length and folds each ASCII capital to its small letter, leaving every other character as it is |
| `Strings.JoinSplit` | common/http.py:29 | joining the split fields with the separator gives back the string |
| `HostProps.HostOfUrl` | common/http.py:29 | the key of `scheme//host[/path]` is `host` |
| `HostProps.HostOfUserUrl` | common/http.py:29 | `http://127.0.0.1:8001/5` is keyed by `127.0.0.1:8001` |
| `Http.Breaker.RecordFailure` | common/http.py:15-19 | the two maps are updated in place as `AfterFailure` says |
| `Http.Breaker.RecordSuccess` | common/http.py:22-24 | the two maps are updated in place as `AfterSuccess` says |
| `Http.RetryLoop` | common/http.py:36-50 | the `while tries < 3` loop as a function of the attempts' outcomes; its contract is carried by `HttpProps.RetryLoopShape` (first 2xx returned, else the third failure raised, sleeping 500·k ms after failure k) and `HttpProps.RetryLoopState` (only the host's entries change, counts stay in 0..2) |
| `Http.RequestCall` | common/http.py:27-50 | `request` from a breaker state; its contract is carried by `HttpProps.InvalidUrlChangesNothing`, `HttpProps.OpenBreakerShortCircuits`, `HttpProps.RequestRetries` and `HttpProps.RequestState` |
| `Http.Breaker.Request` | common/http.py:27-50 | the loop's result, attempt count, sleeps and new maps are those of `RequestCall` on the old maps |
| `HttpProps.RetryLoopShape` | common/http.py:36-50 | the loop stops at the first 2xx attempt and returns it, or after the third and raises its error; one sleep per failed attempt, attempt k sleeping k * 500 ms |
| `HttpProps.RetryLoopState` | common/http.py:38-48 | the loop changes only the called host's entries and keeps every count in 0..2; a returning call leaves count 0 and open-until 0 |
| `HttpProps.AfterFailureBounded` | common/http.py:15-19 | `_record_failure` keeps every count in 0..2 |
| `HttpProps.AfterSuccessBoundedIdempotent` | common/http.py:22-24 | `_record_success` keeps counts bounded and is idempotent |
| `HttpProps.OpenBreakerShortCircuits` | common/http.py:32-33 | an open breaker raises at once: zero attempts, no sleep, maps unchanged |
| `HttpProps.InvalidUrlChangesNothing` | common/http.py:29 | a URL with fewer than two slashes fails before any attempt and changes nothing |
| `HttpProps.RequestRetries` | common/http.py:36-50 | a call past the breaker makes 1 to 3 attempts; it returns iff one of the three is 2xx, and then returns the first 2xx reply; otherwise it raises the third failure after sleeping 500, 1000 and 1500 ms |
| `HttpProps.RequestState` | common/http.py:27-50 | `request` touches only its own host's entries (none for a bad URL) and keeps counts bounded |
| `HttpProps.FullFailureOpensBreaker` | common/http.py:32-49 | three failed attempts make all three attempts even after the breaker opens mid-call; they open it at the attempt that takes the count to 3 and leave the count where it started |
| `HttpProps.TrippedBreakerRejectsNextCall` | common/http.py:10-33 | after three failures on a host with no earlier failures, a call within 10 s of the third failure is refused with zero attempts |
| `HttpProps.CooledDownBreakerRetries` | common/http.py:10-45 | after the cooldown the next call makes an attempt; a 2xx first attempt returns it and closes the breaker with count 0 |
| `Auth.AddServiceAuth` | common/auth.py:7-11 | the result maps the token header to the secret, keeps every other key and value of the input, and adds no other key |
| `Auth.AddServiceAuthIdempotent` | common/auth.py:9-10 | attaching twice equals attaching once; an existing token is overwritten |
| `Auth.VerifyServiceToken` | common/auth.py:13-16 | passes exactly when the presented token equals the secret (`None` never does); otherwise 401 |
| `Gateway.ProxyRoute` | gateway/app/main.py:16-32 | a request is proxied iff its method is one of the five and its path starts with `/users`, `/items` or `/orders`; the prefix plus the captured path gives back the request path |
| `Gateway.TargetUrl` | gateway/app/main.py:19 | the URL starts with the base and continues with the captured path, or `/` when it is empty |
| `Gateway.WithQuery` | gateway/app/main.py:43-46 | an empty query leaves the URL unchanged; otherwise a `?`-free URL and the query are recovered by splitting at the first `?` |
| `Gateway.DropHost` | gateway/app/main.py:39 | every name kept comes from an inbound pair |
| `Gateway.DropHostKey` | gateway/app/main.py:39 | a name is kept iff it is not `host` in any case and some inbound pair carries it |
| `Gateway.DropHostLastValue` | gateway/app/main.py:39 | a repeated header keeps the value of its last pair |
| `Gateway.ForwardHeaders` | gateway/app/main.py:39-40 | the forwarded headers carry the token set to the secret |
| `Gateway.ForwardHeadersKey` | gateway/app/main.py:39-40 | no forwarded name is `host` in any case; every other inbound name is forwarded with its last value; the token is the only name added |
| `Gateway.Forward` | gateway/app/main.py:34-49 | a routed request is forwarded with method and body unchanged, the rewritten headers, and the target URL plus query |
| `Gateway.HeaderValues` | gateway/app/main.py:54 | the result is empty iff no header has the name in any case, and each value comes from such a header; `Gateway.HeaderValuesOrder` and `Gateway.HeaderValuesAppend` complete it |
| `Gateway.HeaderValuesOrder` | gateway/app/main.py:54 | one value per matching header and no other: the value of the k-th matching header sits at position k, so the values come in header order |
| `Gateway.HeaderValuesAppend` | gateway/app/main.py:54 | a header appended last adds its value at the end exactly when its name matches in any case |
| `Gateway.CommaJoin` | gateway/app/main.py:54 | joining repeated header values with `", "`; specified by `Gateway.CommaJoinAppend` |
| `Gateway.CommaJoinAppend` | gateway/app/main.py:54 | one more value is joined on after `", "` |
| `Gateway.ContentType` | gateway/app/main.py:54 | the media type is absent iff the backend sent no content-type header; its value is stated by `Gateway.ContentTypeAppend` and `Gateway.ContentTypeSingle` |
| `Gateway.ContentTypeAppend` | gateway/app/main.py:54 | read header by header, a content-type header in any case starts the media type or extends it with `", "` and its value, and any other header leaves it unchanged; with `ContentType([]) == None` this fixes the media type of every header list |
| `Gateway.ContentTypeSingle` | gateway/app/main.py:54 | when exactly one header is a content-type header, its value is relayed unchanged |
| `Gateway.SingleMatch` | gateway/app/main.py:54 | when exactly one header has the name, its value is the only one collected |
| `Gateway.Relay` | gateway/app/main.py:51-55 | status and body are relayed unchanged, and the media type is the backend's content type |
| `GatewayProps.PrefixNotSlashBounded` | gateway/app/main.py:17-19 | `/usersX` is forwarded to the users base followed by `X` |
| `GatewayProps.BarePrefixForwardsRoot` | gateway/app/main.py:29-31 | `/orders` is forwarded to the orders base followed by `/` |
| `GatewayProps.ItemsRequestForwarded` | gateway/app/main.py:23-49 | `/items/42` reaches the items base + `/42` with the same method and body, the token set and no `host` header |
| `GatewayProps.ForwardedUrlKeepsQuery` | gateway/app/main.py:43-46 | the URL sent splits at its first `?` into the target URL and the query string as received |
| `GatewayProps.OnlyProxyRoutesForward` | gateway/app/main.py:17-29 | other methods and paths outside the three prefixes are not forwarded |
| `GatewayProps.RelaySingleContentType` | gateway/app/main.py:51-55 | one content-type header is relayed as is, with status and body |
| `UsersCrud.UserTable.ListUsers` | users-service/app/crud.py:4-5 | returns every row, table unchanged |
| `UsersCrud.UserTable.GetUserByEmail` | users-service/app/crud.py:7-8 | the first row with the email, or `None` exactly when no row has it |
| `UsersCrud.UserTable.GetUserById` | users-service/app/crud.py:10-11 | the row with the id, or `None` exactly when no row has it |
| `UsersCrud.UserTable.CreateUser` | users-service/app/crud.py:13-20 | a taken email raises "Email ya registrado" and changes nothing; otherwise exactly one user with the next id is appended and returned; emails stay unique |
| `ItemsCrud.ItemTable.ListItems` | items-service/app/crud.py:5-6 | returns every row, table unchanged |
| `ItemsCrud.ItemTable.GetItemBySku` | items-service/app/crud.py:8-9 | the first row with the SKU, or `None` exactly when no row has it |
| `ItemsCrud.ItemTable.CreateItem` | items-service/app/crud.py:12-20 | a taken SKU raises "SKU ya existente" and changes nothing; otherwise exactly one item (stock defaulting to 0) is appended and returned; SKUs stay unique |
| `OrdersCrud.OrderTable.ListOrders` | orders-service/app/crud.py:4-5 | returns every row, table unchanged |
| `OrdersCrud.OrderTable.CreateOrder` | orders-service/app/crud.py:7-12 | appends exactly one order with the given fields (qty 1 and status "CREATED" by default) and the next id; earlier rows unchanged |
| `OrdersCrud.OrderTable.CreateTwice` | orders-service/app/crud.py:7-12 | two identical calls store two orders with equal fields and distinct ids |
| `UsersRouter.ListUsers` | users-service/app/routers.py:27-29 | 200 with every user |
| `UsersRouter.ValidUserIn` | users-service/app/routers.py:20-22 | the `UserIn` field limits (name 1-100, email 1-120 characters); `UsersRouter.CreateUser` states that a payload outside them answers 422 and changes nothing |
| `UsersRouter.CreateUser` | users-service/app/routers.py:20-36 | 422 unless name has 1-100 and email 1-120 characters; a duplicate email gives 409 with the table's message; otherwise 201 with the stored user |
| `UsersRouter.GetUser` | users-service/app/routers.py:38-43 | 200 with the user of that id iff one exists, else 404 "Usuario no encontrado" |
| `ItemsRouter.ListItems` | items-service/app/routers.py:32-34 | 200 with every item |
| `ItemsRouter.ValidItemIn` | items-service/app/routers.py:22-25 | the `ItemIn` field limits (name 1-100, SKU 1-60 characters, any stock); `ItemsRouter.CreateItem` states that a payload outside them answers 422 and changes nothing |
| `ItemsRouter.CreateItem` | items-service/app/routers.py:22-43 | 422 unless name has 1-100 and SKU 1-60 characters (any stock, default 0); a duplicate SKU gives 409 with the table's message; otherwise 201 with the stored item |
| `OrdersRouter.ParseOrderIn` | orders-service/app/routers.py:25-28 | accepted iff user_id > 0, the SKU has 1-60 characters and qty > 0; qty defaults to 1 |
| `OrdersRouter.UserUrl` | orders-service/app/routers.py:43 | the lookup URL starts with the users base URL and a slash |
| `Strings.DecimalString` | orders-service/app/routers.py:43 | `str(n)` is non-empty decimal digits with no leading zero unless n is 0 |
| `Strings.ParseDecimalString` | orders-service/app/routers.py:43 | reading the decimal string back gives the number |
| `OrdersRouter.ListOrders` | orders-service/app/routers.py:34-36 | 200 with every order |
| `OrdersRouter.CreateOrderPlan` | orders-service/app/routers.py:38-56 | the saga's calls and where it stops; its contract is carried by `SagaProps.TokenGuardsSaga`, `InvalidPayloadMakesNoCall`, `UnknownUserStops`, `FailedUserLookupRaises`, `ReservationOutcomes`, `UncheckedReservationStatusProceeds`, `PersistExactlyWhen`, `ReservationNeverCompensated` and `DownstreamCallsCarryNoToken` |
| `OrdersRouter.StopAnswer` | orders-service/app/routers.py:38-56 | a saga stopped by an `HTTPException` (401, 404, 409) answers with that status and detail, an invalid payload answers 422, and an uncaught error (transport error or `raise_for_status`) answers 500 |
| `OrdersRouter.CreateOrder` | orders-service/app/routers.py:38-61 | makes the plan's downstream calls. It writes one "CREATED" order and answers 201 only when the plan reaches the write and the write succeeds. A failing write answers 400 with its message. Every other outcome leaves the table unchanged |
| `SagaProps.TokenGuardsSaga` | orders-service/app/routers.py:38 | a wrong or missing token answers 401 before any downstream call |
| `SagaProps.InvalidPayloadMakesNoCall` | orders-service/app/routers.py:25-39 | an invalid payload answers 422 before any downstream call |
| `SagaProps.UnknownUserStops` | orders-service/app/routers.py:42-45 | a 404 user lookup answers 404 "Usuario no encontrado" after the lookup alone: no reservation, no write |
| `SagaProps.FailedUserLookupRaises` | orders-service/app/routers.py:42-46 | any other non-2xx or transport failure of the lookup raises before the reservation |
| `SagaProps.ReservationOutcomes` | orders-service/app/routers.py:49-55 | after a 2xx lookup the SKU and qty are posted to the items base + `/reserve`; 404 gives "Item no encontrado", 409 gives "Stock insuficiente" |
| `SagaProps.UncheckedReservationStatusProceeds` | orders-service/app/routers.py:49-59 | every reservation status other than 404 and 409, 5xx included, goes on to the write |
| `SagaProps.PersistExactlyWhen` | orders-service/app/routers.py:38-59 | the write is reached iff the token is right, the payload valid, the lookup 2xx and the reservation status neither 404 nor 409 |
| `SagaProps.ReservationNeverCompensated` | orders-service/app/routers.py:48-61 | whenever the write is reached the reservation was the last call, and the saga makes no other POST, so a failed write leaves the stock reserved |
| `SagaProps.DownstreamCallsCarryNoToken` | orders-service/app/routers.py:42-51 | neither downstream call carries the service token |
| `SagaProps.UserUrlRoundTrip` | orders-service/app/routers.py:43 | the lookup URL is keyed by the users host, and its last segment reads back as the user id |

## Left out

- Network I/O: `httpx` clients, `await`, response objects. Replies are inputs. The per-attempt 3 s timeout shows up only as a transport error.
- The `method` and `**kwargs` arguments of `request` only reach `httpx`, so they are not modelled.
- Http.Breaker.Request: requires the input to supply at least three attempts, one for each attempt the loop may make; a call uses only as many as it makes.
- Wall-clock time and sleeping: times are integer milliseconds rather than float seconds. Sleeps are returned as their durations instead of blocking.
- Concurrency: the breaker dictionaries are shared by concurrent requests without locking. The model is a single sequential caller.
- SQLAlchemy sessions, commits, SQLite and the `db.py` files. Tables are sequences, and ids are 1, 2, 3, ... in insertion order, which is what SQLite's rowid gives a table with no deletions.
- OrdersCrud.Order: `itemId` is a string. The router passes the SKU into a column declared Integer, and SQLite's type affinity is not modelled.
- Response-model validation (`UserOut`, `ItemOut`, `OrderOut`) and pydantic's type coercion are not modelled: payload fields arrive already typed.
- `users-service/app/models.py` is not part of this model. The user row shape comes from `UserOut`.
- `gateway/app/settings.py` is not part of this model. The three gateway base URLs are a parameter (`Gateway.Backends`).
- Environment lookups: the secret is its default `dev-secret`, and the order router's base URLs are their loopback defaults.
- The stock reservation itself: `items-service/app/routers.py` defines no `/reserve` route. The saga sees only the status it gets back.
- Framework behaviour outside the handlers is not modelled:
  - FastAPI's 404, 405 and slash-redirect answers for requests no proxy route takes;
  - Starlette's lower-casing and percent-decoding of the request;
  - the `charset` suffix Starlette adds to `text/` media types;
  - the 500 that a transport failure of the gateway's backend call becomes.
- The order of FastAPI's checks is assumed: the service-token dependency runs before body validation.
- Strings.Lower: folds ASCII letters only. This is exact for the `host` comparison, because header names are Latin-1 and no non-ASCII Latin-1 character lower-cases to an ASCII letter.
- `common/logging.py` and the root and health endpoints of every `main.py` (the gateway's included) are not modelled.
