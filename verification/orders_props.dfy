/** What the order-creation saga guarantees, and what it does not, proved about its plan. */
module SagaProps {
  import opened Wrappers
  import opened Web
  import opened Auth
  import Strings
  import Http
  import HostProps
  import opened OrdersRouter

  /** A wrong or missing service token is refused with 401 before any downstream call. */
  lemma TokenGuardsSaga(token: Option<string>, payload: OrderPayload, user: Reply, items: Reply)
    requires token != Some(SECRET)
    ensures var plan := CreateOrderPlan(token, payload, user, items);
            plan.calls == [] && plan.step.Unauthorized? && plan.step.error.status == 401
  {
  }

  /** A payload outside `OrderIn`'s constraints is refused before any downstream call. */
  lemma InvalidPayloadMakesNoCall(payload: OrderPayload, user: Reply, items: Reply)
    requires ParseOrderIn(payload).None?
    ensures CreateOrderPlan(Some(SECRET), payload, user, items) == Plan([], Invalid)
  {
  }

  /** A 404 from the user lookup answers 404 "Usuario no encontrado": no reservation, no write. */
  lemma UnknownUserStops(payload: OrderPayload, items: Reply)
    requires ParseOrderIn(payload).Some?
    ensures var o := ParseOrderIn(payload).value;
            CreateOrderPlan(Some(SECRET), payload, Response(404), items)
              == Plan([Get(UserUrl(o.userId), map[])], Stop(HttpException(404, USER_NOT_FOUND)))
  {
  }

  /** Any other failed user lookup raises (`raise_for_status` or a transport error) before the
      reservation. */
  lemma FailedUserLookupRaises(payload: OrderPayload, user: Reply, items: Reply)
    requires ParseOrderIn(payload).Some?
    requires !Succeeded(user) && user != Response(404)
    ensures var plan := CreateOrderPlan(Some(SECRET), payload, user, items);
            plan.step == Crash && |plan.calls| == 1 && plan.calls[0].Get?
  {
  }

  /** After a 2xx user lookup the reservation is posted with the payload's SKU and quantity; 404
      and 409 stop the saga with their own messages. */
  lemma ReservationOutcomes(payload: OrderPayload, user: Reply, items: Reply)
    requires ParseOrderIn(payload).Some? && Succeeded(user)
    ensures var o := ParseOrderIn(payload).value;
            var plan := CreateOrderPlan(Some(SECRET), payload, user, items);
            && plan.calls == [Get(UserUrl(o.userId), map[]), Post(RESERVE_URL, map[], Reservation(o.itemSku, o.qty))]
            && (items == Response(404) ==> plan.step == Stop(HttpException(404, ITEM_NOT_FOUND)))
            && (items == Response(409) ==> plan.step == Stop(HttpException(409, NO_STOCK)))
            && (items.TransportError? ==> plan.step == Crash)
  {
  }

  /** The reservation reply is not checked beyond 404 and 409: every other status, 5xx included,
      goes on to the write. */
  lemma UncheckedReservationStatusProceeds(payload: OrderPayload, user: Reply, status: int)
    requires ParseOrderIn(payload).Some? && Succeeded(user)
    requires status != 404 && status != 409
    ensures CreateOrderPlan(Some(SECRET), payload, user, Response(status)).step == Persist(ParseOrderIn(payload).value)
  {
  }

  /** The write is reached exactly when the token is right, the payload valid, the user lookup 2xx
      and the reservation answered with a status other than 404 and 409. */
  lemma PersistExactlyWhen(token: Option<string>, payload: OrderPayload, user: Reply, items: Reply)
    ensures CreateOrderPlan(token, payload, user, items).step.Persist?
            <==> && token == Some(SECRET)
                 && ParseOrderIn(payload).Some?
                 && Succeeded(user)
                 && items.Response? && items.status != 404 && items.status != 409
  {
  }

  /** Nothing compensates the reservation: whenever the write is reached the reservation was
      already posted as the last downstream call, and the saga posts nothing else, so a failing
      write leaves the stock reserved. */
  lemma ReservationNeverCompensated(token: Option<string>, payload: OrderPayload, user: Reply, items: Reply)
    ensures var plan := CreateOrderPlan(token, payload, user, items);
            && (plan.step.Persist? ==> |plan.calls| == 2 && plan.calls[1].Post? && plan.calls[1].url == RESERVE_URL)
            && (forall i :: 0 <= i < |plan.calls| && plan.calls[i].Post? ==> i == 1 && plan.calls[i].url == RESERVE_URL)
  {
  }

  /** The downstream calls carry no service token. */
  lemma DownstreamCallsCarryNoToken(token: Option<string>, payload: OrderPayload, user: Reply, items: Reply)
    ensures var plan := CreateOrderPlan(token, payload, user, items);
            forall i :: 0 <= i < |plan.calls| ==> TOKEN_HEADER !in plan.calls[i].headers
  {
  }

  /** The user lookup URL names the users service's host and ends in the decimal id, which the
      users service reads back as the same id. */
  lemma UserUrlRoundTrip(userId: nat)
    ensures var url := UserUrl(userId);
            && Http.Host(url) == Some("127.0.0.1:8001")
            && url == USERS_SERVICE_URL + "/" + Strings.DecimalString(userId)
            && Strings.ParseDecimal(url[|USERS_SERVICE_URL| + 1..]) == userId
  {
    var digits := Strings.DecimalString(userId);
    var url := UserUrl(userId);
    assert url == "http:" + "//" + "127.0.0.1:8001" + ("/" + digits);
    HostProps.HostOfUrl("http:", "127.0.0.1:8001", "/" + digits);
    assert url[|USERS_SERVICE_URL| + 1..] == digits;
    Strings.ParseDecimalString(userId);
  }
}
