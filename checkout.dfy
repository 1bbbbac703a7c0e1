/** The multi-item checkout handler (supabase/functions/create-checkout-session): validate the
    cart, re-read prices and sellers from the notes table, refuse sellers that cannot be paid,
    open one Stripe checkout session and record one pending order per note. */
module Checkout {
  import opened Wrappers
  import opened JsText
  import opened Http
  import opened Ledger
  import opened Gateway

  /** A cart entry as the client sends it; the client's price is never used. */
  datatype RequestItem = RequestItem(id: string, price: int)

  /** The request: its method, the JSON body's items and userId (missing is modelled as empty),
      and the origin header. */
  datatype CheckoutRequest = CheckoutRequest(httpMethod: string, items: seq<RequestItem>, userId: string,
                                             origin: Option<string>)

  /** What the outside world answers: the notes query's error, Stripe's reply to the session
      request, the orders insert's error, and the transfer-group name built from the clock. */
  datatype CheckoutOracles = CheckoutOracles(notesError: Option<string>, sessionReply: Result<string>,
                                             ordersError: Option<string>, transferGroup: string)

  const InvalidRequestMessage := "Invalid request data"
  const NotesNotFoundMessage := "Notes not found"
  const SellersNotReadyMessage := "Some sellers are not properly set up for payments"
  const DefaultOrigin := "http://localhost:5173"
  const Currency := "jpy"
  /** The platform keeps 15% of each price. */
  const FeePercent := 15

  /** Math.round(price * 0.15) in exact arithmetic: the integer nearest to 15% of the price, halves
      rounded up; for a price of at least zero it lies between zero and the price. */
  function PlatformFee(price: int): (fee: int)
    ensures 100 * fee - 50 <= FeePercent * price < 100 * fee + 50
    ensures price >= 0 ==> 0 <= fee <= price
  {
    (FeePercent * price + 50) / 100
  }

  /** The worked example: a 1000 yen note carries a fee of 150 and leaves 850 for the seller. */
  lemma ThousandYenExample()
    ensures PlatformFee(1000) == 150 && 1000 - PlatformFee(1000) == 850
  {
  }

  /** items.map(item => item.id) */
  function RequestIds(items: seq<RequestItem>): (ids: seq<string>)
    ensures |ids| == |items|
    ensures forall i :: 0 <= i < |items| ==> ids[i] == items[i].id
  {
    if |items| == 0 then [] else [items[0].id] + RequestIds(items[1..])
  }

  /** !items?.length || !userId rejects the request. */
  predicate ValidRequest(req: CheckoutRequest) {
    |req.items| > 0 && req.userId != ""
  }

  /** A seller can be paid when the joined profile has a non-empty Stripe account id and the
      status 'verified'. */
  predicate Payable(n: NoteWithSeller) {
    && n.seller.Some?
    && n.seller.value.stripeAccountId.Some?
    && n.seller.value.stripeAccountId.value != ""
    && n.seller.value.stripeAccountStatus == Some(AccountVerified)
  }

  /** notes.filter(note => !payable) */
  function InvalidSellers(found: seq<NoteWithSeller>): (r: seq<NoteWithSeller>)
    ensures r == [] <==> forall i :: 0 <= i < |found| ==> Payable(found[i])
    ensures forall k :: 0 <= k < |r| ==> r[k] in found && !Payable(r[k])
  {
    if |found| == 0 then []
    else if Payable(found[0]) then InvalidSellers(found[1..])
    else [found[0]] + InvalidSellers(found[1..])
  }

  /** Every check the handler makes before it calls Stripe, in the handler's order: request
      validation, the notes query's error, an empty lookup, unpayable sellers. */
  function CheckoutGate(req: CheckoutRequest, notesError: Option<string>, found: seq<NoteWithSeller>)
    : (r: Result<seq<NoteWithSeller>>)
    ensures r.Ok? <==> ValidRequest(req) && notesError.None? && found != [] &&
                        forall i :: 0 <= i < |found| ==> Payable(found[i])
    ensures r.Ok? ==> r.value == found
    ensures !ValidRequest(req) ==> r == Err(InvalidRequestMessage)
    ensures ValidRequest(req) && notesError.Some? ==> r == Err(notesError.value)
    ensures ValidRequest(req) && notesError.None? && found == [] ==> r == Err(NotesNotFoundMessage)
    ensures (ValidRequest(req) && notesError.None? && found != [] &&
             exists i :: 0 <= i < |found| && !Payable(found[i])) ==> r == Err(SellersNotReadyMessage)
  {
    if !ValidRequest(req) then Err(InvalidRequestMessage)
    else if notesError.Some? then Err(notesError.value)
    else if |found| == 0 then Err(NotesNotFoundMessage)
    else if |InvalidSellers(found)| > 0 then Err(SellersNotReadyMessage)
    else Ok(found)
  }

  /** The session's line items: one per fetched note, in the lookup's order, priced from the
      notes table. */
  function LineItems(found: seq<NoteWithSeller>): (items: seq<LineItem>)
    ensures |items| == |found|
    ensures forall i :: 0 <= i < |found| ==>
      && items[i].quantity == 1
      && items[i].currency == Currency
      && items[i].unitAmount == found[i].note.price
      && items[i].productName == found[i].note.title
  {
    if |found| == 0 then []
    else [LineItem(Currency, found[0].note.title, found[0].note.price, 1)] + LineItems(found[1..])
  }

  /** metadata: { user_id: userId, note_ids: noteIds.join(',') } */
  function SessionMetadata(userId: string, ids: seq<string>): (m: map<string, string>)
    ensures m.Keys == {"user_id", "note_ids"}
    ensures m["user_id"] == userId && m["note_ids"] == Join(ids, ',')
  {
    map["user_id" := userId, "note_ids" := Join(ids, ',')]
  }

  /** The origin header, or the development default when it is absent or empty. */
  function OriginOf(req: CheckoutRequest): string {
    if req.origin.Some? && req.origin.value != "" then req.origin.value else DefaultOrigin
  }

  function SessionParamsFor(req: CheckoutRequest, found: seq<NoteWithSeller>, transferGroup: string): SessionParams {
    SessionParams(LineItems(found), OriginOf(req) + "/success", OriginOf(req) + "/cart",
                  Some(transferGroup), SessionMetadata(req.userId, RequestIds(req.items)))
  }

  /** One pending order per fetched note, all for the buyer and the new session, each with the
      platform fee of the note's stored price. */
  function PendingOrders(found: seq<NoteWithSeller>, userId: string, sessionId: string): (orders: seq<Order>)
    ensures |orders| == |found|
    ensures forall i :: 0 <= i < |found| ==>
      && orders[i].noteId == found[i].note.id
      && orders[i].buyerId == userId
      && orders[i].paymentStatus == PaymentPending
      && orders[i].stripeSessionId == sessionId
      && orders[i].platformFee == Some(PlatformFee(found[i].note.price))
  {
    if |found| == 0 then []
    else
      [Order(found[0].note.id, userId, PaymentPending, sessionId, Some(PlatformFee(found[0].note.price)))]
        + PendingOrders(found[1..], userId, sessionId)
  }

  /** Two requests that name the same notes for the same buyer and origin but claim different
      prices open the same session: what is charged comes from the notes table. */
  lemma {:induction false} ClientPricesIgnored(req1: CheckoutRequest, req2: CheckoutRequest,
                                              found: seq<NoteWithSeller>, transferGroup: string)
    requires |req1.items| == |req2.items|
    requires forall i :: 0 <= i < |req1.items| ==> req1.items[i].id == req2.items[i].id
    requires req1.userId == req2.userId && req1.origin == req2.origin
    ensures SessionParamsFor(req1, found, transferGroup) == SessionParamsFor(req2, found, transferGroup)
  {
    assert RequestIds(req1.items) == RequestIds(req2.items);
  }

  /** The handler. Nothing is written before Stripe has been asked for a session; once the
      session exists, a failed insert leaves it without orders and answers 500. */
  method CreateCheckoutSession(store: Store, gateway: PaymentGateway, req: CheckoutRequest,
                               oracles: CheckoutOracles) returns (resp: Response)
    modifies store, gateway
    ensures store.notes == old(store.notes) && store.profiles == old(store.profiles)
    ensures store.ratings == old(store.ratings)
    ensures gateway.transfers == old(gateway.transfers) && gateway.accounts == old(gateway.accounts)
    ensures req.httpMethod == OPTIONS ==>
      resp == Response(200, NoBody) && store.orders == old(store.orders) && gateway.sessions == old(gateway.sessions)
    ensures req.httpMethod != OPTIONS ==>
      var found := NotesIn(old(store.notes), old(store.profiles), RequestIds(req.items));
      var gate := CheckoutGate(req, oracles.notesError, found);
      var reply := oracles.sessionReply;
      && (gate.Err? ==>
            resp == Response(500, ErrorBody(gate.message))
            && store.orders == old(store.orders) && gateway.sessions == old(gateway.sessions))
      && (gate.Ok? && reply.Err? ==>
            resp == Response(500, ErrorBody(reply.message))
            && store.orders == old(store.orders) && gateway.sessions == old(gateway.sessions))
      && (gate.Ok? && reply.Ok? ==>
            gateway.sessions == old(gateway.sessions) + [Session(reply.value, SessionParamsFor(req, found, oracles.transferGroup))]
            && (oracles.ordersError.Some? ==>
                  resp == Response(500, ErrorBody(oracles.ordersError.value)) && store.orders == old(store.orders))
            && (oracles.ordersError.None? ==>
                  resp == Response(200, SessionBody(reply.value))
                  && store.orders == old(store.orders) + PendingOrders(found, req.userId, reply.value)))
  {
    if req.httpMethod == OPTIONS {
      return Response(200, NoBody);
    }
    if !ValidRequest(req) {
      return Response(500, ErrorBody(InvalidRequestMessage));
    }
    var ids := RequestIds(req.items);
    var lookup := store.SelectNotesIn(ids, oracles.notesError);
    if lookup.Err? {
      return Response(500, ErrorBody(lookup.message));
    }
    var found := lookup.value;
    if |found| == 0 {
      return Response(500, ErrorBody(NotesNotFoundMessage));
    }
    var invalid := InvalidSellers(found);
    if |invalid| > 0 {
      return Response(500, ErrorBody(SellersNotReadyMessage));
    }
    var session := gateway.CreateSession(SessionParamsFor(req, found, oracles.transferGroup), oracles.sessionReply);
    if session.Err? {
      return Response(500, ErrorBody(session.message));
    }
    var orders := PendingOrders(found, req.userId, session.value);
    var err := store.InsertOrders(orders, oracles.ordersError);
    if err.Some? {
      return Response(500, ErrorBody(err.value));
    }
    return Response(200, SessionBody(session.value));
  }
}
