/** The single-note checkout of the Vercel API (api/create-checkout-session.ts): one line item
    priced from the request, one pending order without a platform fee. */
module LegacyCheckout {
  import opened Wrappers
  import opened Http
  import opened Ledger
  import opened Gateway
  import Checkout

  /** The request body's fields and the Origin header; an absent origin is interpolated by
      JavaScript as the text "undefined". */
  datatype LegacyRequest = LegacyRequest(httpMethod: string, noteId: string, userId: string, price: int,
                                         title: string, origin: string)

  const MethodNotAllowedMessage := "Method not allowed"
  const InternalErrorMessage := "Internal server error"

  /** The session asked of Stripe: the client's own price and title, quantity one, in yen. */
  function LegacySessionParams(req: LegacyRequest): (p: SessionParams)
    ensures |p.lineItems| == 1
    ensures p.lineItems[0] == LineItem(Checkout.Currency, req.title, req.price, 1)
    ensures p.successUrl == req.origin + "/success?session_id={CHECKOUT_SESSION_ID}"
    ensures p.cancelUrl == req.origin + "/notes/" + req.noteId
    ensures p.transferGroup.None?
    ensures p.metadata.Keys == {"noteId", "userId"}
    ensures p.metadata["noteId"] == req.noteId && p.metadata["userId"] == req.userId
  {
    SessionParams([LineItem(Checkout.Currency, req.title, req.price, 1)],
                  req.origin + "/success?session_id={CHECKOUT_SESSION_ID}",
                  req.origin + "/notes/" + req.noteId,
                  None,
                  map["noteId" := req.noteId, "userId" := req.userId])
  }

  function LegacyOrder(req: LegacyRequest, sessionId: string): (o: Order)
    ensures o.noteId == req.noteId && o.buyerId == req.userId && o.stripeSessionId == sessionId
    ensures o.paymentStatus == PaymentPending && o.platformFee.None?
  {
    Order(req.noteId, req.userId, PaymentPending, sessionId, None)
  }

  method CreateLegacyCheckoutSession(store: Store, gateway: PaymentGateway, req: LegacyRequest,
                                     sessionReply: Result<string>, orderError: Option<string>)
    returns (resp: Response)
    modifies store, gateway
    ensures store.notes == old(store.notes) && store.profiles == old(store.profiles) && store.ratings == old(store.ratings)
    ensures gateway.transfers == old(gateway.transfers) && gateway.accounts == old(gateway.accounts)
    ensures req.httpMethod != POST ==>
      resp == Response(405, ErrorBody(MethodNotAllowedMessage))
      && store.orders == old(store.orders) && gateway.sessions == old(gateway.sessions)
    ensures req.httpMethod == POST && sessionReply.Err? ==>
      resp == Response(500, ErrorBody(InternalErrorMessage))
      && store.orders == old(store.orders) && gateway.sessions == old(gateway.sessions)
    ensures req.httpMethod == POST && sessionReply.Ok? ==>
      && gateway.sessions == old(gateway.sessions) + [Session(sessionReply.value, LegacySessionParams(req))]
      && (orderError.Some? ==>
            resp == Response(500, ErrorBody(InternalErrorMessage)) && store.orders == old(store.orders))
      && (orderError.None? ==>
            resp == Response(200, SessionBody(sessionReply.value))
            && store.orders == old(store.orders) + [LegacyOrder(req, sessionReply.value)])
  {
    if req.httpMethod != POST {
      return Response(405, ErrorBody(MethodNotAllowedMessage));
    }
    var session := gateway.CreateSession(LegacySessionParams(req), sessionReply);
    if session.Err? {
      return Response(500, ErrorBody(InternalErrorMessage));
    }
    var err := store.InsertOrders([LegacyOrder(req, session.value)], orderError);
    if err.Some? {
      return Response(500, ErrorBody(InternalErrorMessage));
    }
    return Response(200, SessionBody(session.value));
  }

  /** Unlike the multi-item handler, this one charges whatever price the client sends: two
      requests differing only in price yield sessions differing in the charged amount. */
  lemma ClientPriceCharged(req: LegacyRequest, price: int)
    requires price != req.price
    ensures LegacySessionParams(req.(price := price)) != LegacySessionParams(req)
    ensures LegacySessionParams(req.(price := price)).lineItems[0].unitAmount == price
  {
    assert LegacySessionParams(req.(price := price)).lineItems[0].unitAmount
        != LegacySessionParams(req).lineItems[0].unitAmount;
  }
}
