/** The Stripe webhook of the Vercel API (api/webhook.ts): it only marks the session's orders
    completed; it issues no transfers. */
module LegacyWebhook {
  import opened Wrappers
  import opened Http
  import opened Ledger

  datatype LegacyEvent = LegacySessionCompleted(sessionId: string) | LegacyOtherEvent(eventType: string)

  const MethodNotAllowedMessage := "Method not allowed"
  const UpdateFailedMessage := "Failed to update order status"

  /** `event` is constructEvent's result: the verified event, or the message of its error. */
  method HandleLegacyWebhook(store: Store, httpMethod: string, event: Result<LegacyEvent>,
                             updateError: Option<string>) returns (resp: Response)
    modifies store
    ensures store.notes == old(store.notes) && store.profiles == old(store.profiles) && store.ratings == old(store.ratings)
    ensures httpMethod != POST ==>
      resp == Response(405, ErrorBody(MethodNotAllowedMessage)) && store.orders == old(store.orders)
    ensures httpMethod == POST && event.Err? ==>
      resp == Response(400, TextBody("Webhook Error: " + event.message)) && store.orders == old(store.orders)
    ensures httpMethod == POST && event.Ok? && event.value.LegacySessionCompleted? ==>
      && (updateError.Some? ==>
            resp == Response(500, ErrorBody(UpdateFailedMessage)) && store.orders == old(store.orders))
      && (updateError.None? ==>
            resp == Response(200, ReceivedBody)
            && store.orders == MarkCompleted(old(store.orders), event.value.sessionId))
    ensures httpMethod == POST && event.Ok? && event.value.LegacyOtherEvent? ==>
      resp == Response(200, ReceivedBody) && store.orders == old(store.orders)
  {
    if httpMethod != POST {
      return Response(405, ErrorBody(MethodNotAllowedMessage));
    }
    if event.Err? {
      return Response(400, TextBody("Webhook Error: " + event.message));
    }
    match event.value
    case LegacySessionCompleted(sessionId) =>
      var err := store.CompleteSessionOrders(sessionId, updateError);
      if err.Some? {
        return Response(500, ErrorBody(UpdateFailedMessage));
      }
      return Response(200, ReceivedBody);
    case LegacyOtherEvent(_) =>
      return Response(200, ReceivedBody);
  }
}
