/** The orders-service endpoints, and the order-creation saga: look the user up, reserve the stock,
    store the order. The two downstream calls go out through a plain HTTP client, without the
    breaker and without the service token; the reservation is never undone. */
module OrdersRouter {
  import opened Wrappers
  import opened Web
  import opened Auth
  import Strings
  import opened OrdersCrud

  const USERS_SERVICE_URL: string := "http://127.0.0.1:8001"
  const ITEMS_SERVICE_URL: string := "http://127.0.0.1:8002"

  const USER_NOT_FOUND: string := "Usuario no encontrado"
  const ITEM_NOT_FOUND: string := "Item no encontrado"
  const NO_STOCK: string := "Stock insuficiente"

  /** The `OrderIn` payload as sent; `qty` is `None` when the client leaves it out. */
  datatype OrderPayload = OrderPayload(userId: int, itemSku: string, qty: Option<int>)

  /** A validated `OrderIn`. */
  datatype OrderIn = OrderIn(userId: int, itemSku: string, qty: int)

  /** `OrderIn` validation: `user_id > 0`, a SKU of 1 to 60 characters, `qty > 0` defaulting to 1;
      `None` is the 422 FastAPI answers with. */
  function ParseOrderIn(p: OrderPayload): (o: Option<OrderIn>)
    ensures o.Some? <==> p.userId > 0 && 1 <= |p.itemSku| <= 60 && (p.qty.None? || p.qty.value > 0)
    ensures o.Some? ==> o.value.userId == p.userId && o.value.itemSku == p.itemSku && o.value.qty > 0
    ensures o.Some? && p.qty.None? ==> o.value.qty == 1
    ensures o.Some? && p.qty.Some? ==> o.value.qty == p.qty.value
  {
    var qty := p.qty.GetOr(1);
    if p.userId > 0 && 1 <= |p.itemSku| <= 60 && qty > 0 then Some(OrderIn(p.userId, p.itemSku, qty)) else None
  }

  /** The JSON body of the reservation, `{"sku": ..., "qty": ...}`. */
  datatype Reservation = Reservation(sku: string, qty: int)

  /** A downstream call the saga makes, with the headers it sends. */
  datatype Downstream =
    | Get(url: string, headers: map<string, string>)
    | Post(url: string, headers: map<string, string>, body: Reservation)

  /** `f"{USERS_SERVICE_URL}/{user_id}"`. */
  function UserUrl(userId: nat): (url: string)
    ensures Strings.StartsWith(url, USERS_SERVICE_URL + "/")
  {
    USERS_SERVICE_URL + "/" + Strings.DecimalString(userId)
  }

  /** `f"{ITEMS_SERVICE_URL}/reserve"`. */
  const RESERVE_URL: string := ITEMS_SERVICE_URL + "/reserve"

  /** Where the saga stops before writing: a token failure, a validation failure, an
      `HTTPException`, or an unhandled exception (a transport error, or `raise_for_status` on the
      user lookup). Otherwise it goes on to write the order. */
  datatype Step =
    | Unauthorized(error: HttpException)
    | Invalid
    | Stop(error: HttpException)
    | Crash
    | Persist(order: OrderIn)

  /** The calls made, in order, and where the saga ends up before the write. */
  datatype Plan = Plan(calls: seq<Downstream>, step: Step)

  /** `create_order` up to the write, given the presented token and the two downstream replies. */
  function CreateOrderPlan(token: Option<string>, payload: OrderPayload, user: Reply, items: Reply): Plan {
    match VerifyServiceToken(token)
    case Some(e) => Plan([], Unauthorized(e))
    case None =>
      match ParseOrderIn(payload)
      case None => Plan([], Invalid)
      case Some(o) =>
        var lookup := Get(UserUrl(o.userId), map[]);
        if user.TransportError? then Plan([lookup], Crash)
        else if user.status == 404 then Plan([lookup], Stop(HttpException(404, USER_NOT_FOUND)))
        else if !Is2xx(user.status) then Plan([lookup], Crash)
        else
          var reserve := Post(RESERVE_URL, map[], Reservation(o.itemSku, o.qty));
          if items.TransportError? then Plan([lookup, reserve], Crash)
          else if items.status == 404 then Plan([lookup, reserve], Stop(HttpException(404, ITEM_NOT_FOUND)))
          else if items.status == 409 then Plan([lookup, reserve], Stop(HttpException(409, NO_STOCK)))
          else Plan([lookup, reserve], Persist(o))
  }

  /** The HTTP answer of a saga that stopped before the write. */
  function StopAnswer(step: Step): (a: Answer<Order>)
    requires !step.Persist?
    ensures step.Unauthorized? ==> a == Raised(step.error)
    ensures step.Stop? ==> a == Raised(step.error)
    ensures step.Invalid? ==> a == Unprocessable
    ensures step.Crash? ==> a == ServerError
  {
    match step
    case Unauthorized(e) => Raised(e)
    case Stop(e) => Raised(e)
    case Invalid => Unprocessable
    case Crash => ServerError
  }

  /** `GET /`: 200 with every order. */
  method ListOrders(db: OrderTable) returns (a: Answer<seq<Order>>)
    ensures a == Ok(200, db.rows)
  {
    var all := db.ListOrders();
    a := Ok(200, all);
  }

  /** `POST /`: the saga. `persistError` is the message of the exception the write raises, if it
      does; the write then answers 400 with that message and nothing is stored. */
  method CreateOrder(db: OrderTable, token: Option<string>, payload: OrderPayload,
                     user: Reply, items: Reply, persistError: Option<string>)
    returns (a: Answer<Order>, calls: seq<Downstream>)
    requires db.Valid()
    modifies db
    ensures db.Valid()
    ensures var plan := CreateOrderPlan(token, payload, user, items);
            && calls == plan.calls
            && (!plan.step.Persist? ==> a == StopAnswer(plan.step) && db.rows == old(db.rows))
            && (plan.step.Persist? && persistError.Some? ==>
                  a == Raised(HttpException(400, persistError.value)) && db.rows == old(db.rows))
            && (plan.step.Persist? && persistError.None? ==>
                  var o := plan.step.order;
                  && a == Ok(201, Order(|old(db.rows)| + 1, o.userId, o.itemSku, o.qty, CREATED))
                  && db.rows == old(db.rows) + [a.body])
  {
    var plan := CreateOrderPlan(token, payload, user, items);
    calls := plan.calls;
    if !plan.step.Persist? {
      return StopAnswer(plan.step), calls;
    }
    var o := plan.step.order;
    match persistError
    case Some(msg) =>
      a := Raised(HttpException(400, msg));
    case None =>
      var stored := db.CreateOrder(o.userId, o.itemSku, o.qty);
      a := Ok(201, stored);
  }
}
