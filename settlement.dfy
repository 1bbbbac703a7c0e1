/** The Stripe webhook (supabase/functions/webhook): on checkout.session.completed it marks every
    order of the session completed and then issues one transfer per order, of price minus platform
    fee, to the note's seller; on account.updated it promotes the matching profiles to 'verified'
    when the account is fully enabled. */
module Settlement {
  import opened Wrappers
  import opened JsText
  import opened Http
  import opened Ledger
  import opened Gateway
  import Checkout

  /** A verified Stripe event, reduced to the fields the handler reads. */
  datatype Event =
    | SessionCompleted(sessionId: string, paymentIntent: string, metadata: map<string, string>)
    | AccountUpdated(accountId: string, chargesEnabled: bool, detailsSubmitted: bool, payoutsEnabled: bool)
    | OtherEvent(eventType: string)

  /** What the outside world answers: signature verification (the event, or the error it throws),
      the orders update's error, whether the orders select returns no data, the payment intent's
      transfer_group (or the retrieval error), the error of the i-th transfer, and the profiles
      update's error. */
  datatype SettlementOracles = SettlementOracles(
    event: Result<Event>,
    ordersUpdateError: Option<string>,
    orderRowsMissing: bool,
    intentReply: Result<Option<string>>,
    transferError: nat -> Option<string>,
    profileUpdateError: Option<string>)

  const NoSignatureText := "No signature"
  /** The TypeError thrown by session.metadata.note_ids.split(',') when note_ids is absent. */
  const MissingNoteIdsMessage := "Cannot read properties of undefined (reading 'split')"

  /** order.notes.price - order.platform_fee; a NULL fee counts as zero in JavaScript subtraction. */
  function NetAmount(row: OrderRow): (amount: int)
    ensures amount + OrElse(row.platformFee, 0) == row.price
  {
    row.price - OrElse(row.platformFee, 0)
  }

  function TransferFor(row: OrderRow, transferGroup: Option<string>): Transfer {
    Transfer(NetAmount(row), Checkout.Currency, row.sellerAccountId, transferGroup)
  }

  /** The transfers of the loop, one per joined order row, in order. */
  function TransfersFor(rows: seq<OrderRow>, transferGroup: Option<string>): (ts: seq<Transfer>)
    ensures |ts| == |rows|
    ensures forall i :: 0 <= i < |rows| ==>
      && ts[i].amount == rows[i].price - OrElse(rows[i].platformFee, 0)
      && ts[i].currency == Checkout.Currency
      && ts[i].destination == rows[i].sellerAccountId
      && ts[i].transferGroup == transferGroup
  {
    if |rows| == 0 then [] else [TransferFor(rows[0], transferGroup)] + TransfersFor(rows[1..], transferGroup)
  }

  /** How many of n transfers the loop issues before the first failing call. */
  function IssuedCount(n: nat, errors: nat -> Option<string>): (k: nat)
    ensures k <= n
    ensures forall j :: 0 <= j < k ==> errors(j).None?
    ensures k < n ==> errors(k).Some?
  {
    if n == 0 then 0
    else
      var k := IssuedCount(n - 1, errors);
      if k < n - 1 then k
      else if errors(n - 1).Some? then n - 1
      else n
  }

  predicate FullyEnabled(chargesEnabled: bool, detailsSubmitted: bool, payoutsEnabled: bool) {
    chargesEnabled && detailsSubmitted && payoutsEnabled
  }

  function SumPrices(rows: seq<OrderRow>): int {
    if |rows| == 0 then 0 else rows[0].price + SumPrices(rows[1..])
  }

  function SumFees(rows: seq<OrderRow>): int {
    if |rows| == 0 then 0 else OrElse(rows[0].platformFee, 0) + SumFees(rows[1..])
  }

  function SumAmounts(ts: seq<Transfer>): int {
    if |ts| == 0 then 0 else ts[0].amount + SumAmounts(ts[1..])
  }

  /** Money conservation over a session: what the sellers are sent plus what the platform keeps
      is the sum of the notes' current prices (the rows join the price at webhook time, which is
      the price charged unless the note was edited in between). */
  lemma {:induction false} MoneyConservation(rows: seq<OrderRow>, transferGroup: Option<string>)
    ensures SumAmounts(TransfersFor(rows, transferGroup)) + SumFees(rows) == SumPrices(rows)
  {
    if |rows| > 0 {
      MoneyConservation(rows[1..], transferGroup);
      assert TransfersFor(rows, transferGroup)[1..] == TransfersFor(rows[1..], transferGroup);
    }
  }

  /** Marking a session's orders completed a second time changes nothing. */
  lemma MarkCompletedIdempotent(orders: seq<Order>, sessionId: string)
    ensures MarkCompleted(MarkCompleted(orders, sessionId), sessionId) == MarkCompleted(orders, sessionId)
  {
  }

  /** The rows the transfer loop reads do not depend on payment status, so a second delivery of
      the same event (after the first completed the orders) meets the same rows and issues the
      same transfers again: the handler has no duplicate-delivery check. */
  lemma {:induction false} RowsIgnoreCompletion(orders: seq<Order>, notes: seq<Note>,
                                               profiles: map<string, Profile>, sessionId: string)
    ensures SessionOrderRows(MarkCompleted(orders, sessionId), notes, profiles, sessionId)
         == SessionOrderRows(orders, notes, profiles, sessionId)
  {
    if |orders| > 0 {
      assert MarkCompleted(orders, sessionId)[1..] == MarkCompleted(orders[1..], sessionId);
      RowsIgnoreCompletion(orders[1..], notes, profiles, sessionId);
    }
  }

  /** Only orders of the session reach the transfer loop: each row is the join of one of the
      session's orders (its note's price, its fee, its seller's account). */
  lemma {:induction false} RowsComeFromSession(orders: seq<Order>, notes: seq<Note>,
                                              profiles: map<string, Profile>, sessionId: string)
    ensures |SessionOrderRows(orders, notes, profiles, sessionId)| <= |orders|
    ensures forall k :: 0 <= k < |SessionOrderRows(orders, notes, profiles, sessionId)| ==>
      exists i :: 0 <= i < |orders| && orders[i].stripeSessionId == sessionId &&
                  JoinRow(orders[i], notes, profiles) == Some(SessionOrderRows(orders, notes, profiles, sessionId)[k])
    ensures (forall i :: 0 <= i < |orders| ==> orders[i].stripeSessionId != sessionId)
        ==> SessionOrderRows(orders, notes, profiles, sessionId) == []
  {
    if |orders| > 0 {
      RowsComeFromSession(orders[1..], notes, profiles, sessionId);
      var rows := SessionOrderRows(orders, notes, profiles, sessionId);
      var rest := SessionOrderRows(orders[1..], notes, profiles, sessionId);
      var taken := orders[0].stripeSessionId == sessionId && JoinRow(orders[0], notes, profiles).Some?;
      forall k | 0 <= k < |rows|
        ensures exists i :: 0 <= i < |orders| && orders[i].stripeSessionId == sessionId &&
                  JoinRow(orders[i], notes, profiles) == Some(rows[k])
      {
        if taken && k == 0 {
          assert JoinRow(orders[0], notes, profiles) == Some(rows[0]);
        } else {
          var k' := if taken then k - 1 else k;
          assert rows[k] == rest[k'];
          var i :| 0 <= i < |orders[1..]| && orders[1..][i].stripeSessionId == sessionId
            && JoinRow(orders[1..][i], notes, profiles) == Some(rest[k']);
          assert orders[i + 1] == orders[1..][i];
        }
      }
    }
  }

  /** Every order of the session whose note and seller profile exist reaches the transfer loop. */
  lemma {:induction false} SessionOrderReachesLoop(orders: seq<Order>, notes: seq<Note>,
                                                  profiles: map<string, Profile>, sessionId: string)
    ensures forall i :: 0 <= i < |orders| && orders[i].stripeSessionId == sessionId &&
                        JoinRow(orders[i], notes, profiles).Some? ==>
      JoinRow(orders[i], notes, profiles).value in SessionOrderRows(orders, notes, profiles, sessionId)
  {
    if |orders| > 0 {
      SessionOrderReachesLoop(orders[1..], notes, profiles, sessionId);
      forall i | 1 <= i < |orders|
        ensures orders[i] == orders[1..][i - 1]
      {
      }
    }
  }

  /** The rows keep the table's order: the select over two parts of the table gives the two
      selections one after the other. */
  lemma {:induction false} SessionRowsConcat(a: seq<Order>, b: seq<Order>, notes: seq<Note>,
                                            profiles: map<string, Profile>, sessionId: string)
    ensures SessionOrderRows(a + b, notes, profiles, sessionId)
         == SessionOrderRows(a, notes, profiles, sessionId) + SessionOrderRows(b, notes, profiles, sessionId)
  {
    if |a| > 0 {
      assert (a + b)[1..] == a[1..] + b;
      SessionRowsConcat(a[1..], b, notes, profiles, sessionId);
    } else {
      assert a + b == b;
    }
  }

  /** The account.updated update never demotes a profile, never touches account ids, and leaves
      every profile of the account verified. */
  lemma VerifyAccountMonotone(profiles: map<string, Profile>, accountId: string)
    ensures VerifyAccount(profiles, accountId).Keys == profiles.Keys
    ensures forall u :: u in profiles ==>
      && VerifyAccount(profiles, accountId)[u].stripeAccountId == profiles[u].stripeAccountId
      && (profiles[u].stripeAccountStatus == Some(AccountVerified) ==>
            VerifyAccount(profiles, accountId)[u].stripeAccountStatus == Some(AccountVerified))
      && (profiles[u].stripeAccountId == Some(accountId) ==>
            VerifyAccount(profiles, accountId)[u].stripeAccountStatus == Some(AccountVerified))
      && (profiles[u].stripeAccountId != Some(accountId) ==> VerifyAccount(profiles, accountId)[u] == profiles[u])
  {
  }

  /** The session's note_ids metadata, written by the checkout handler as the request ids joined
      with commas, splits back into those ids when no id contains a comma. */
  lemma NoteIdsRoundTrip(userId: string, ids: seq<string>)
    requires |ids| >= 1
    requires forall i :: 0 <= i < |ids| ==> ',' !in ids[i]
    ensures Split(Checkout.SessionMetadata(userId, ids)["note_ids"], ',') == ids
  {
    SplitJoin(ids, ',');
  }

  predicate Missing(signature: Option<string>) {
    signature.None? || signature.value == ""
  }

  /** The loop stops at the first failing call: a call that fails after i successes ends it at i. */
  lemma IssuedCountAtFailure(n: nat, errors: nat -> Option<string>, i: nat)
    requires i < n && errors(i).Some?
    requires forall j :: 0 <= j < i ==> errors(j).None?
    ensures IssuedCount(n, errors) == i
  {
  }

  lemma TransfersPrefixStep(rows: seq<OrderRow>, transferGroup: Option<string>, i: nat)
    requires i < |rows|
    ensures TransfersFor(rows, transferGroup)[..i + 1]
         == TransfersFor(rows, transferGroup)[..i] + [TransferFor(rows[i], transferGroup)]
  {
    var ts := TransfersFor(rows, transferGroup);
    assert ts[i].amount == NetAmount(rows[i]);
    assert ts[i] == TransferFor(rows[i], transferGroup);
    assert ts[..i + 1] == ts[..i] + [ts[i]];
  }

  /** The loop over the joined rows: one transfer per row, stopping at the first failing call. */
  method IssueTransfers(gateway: PaymentGateway, rows: seq<OrderRow>, transferGroup: Option<string>,
                        errors: nat -> Option<string>) returns (err: Option<string>)
    modifies gateway
    ensures gateway.sessions == old(gateway.sessions) && gateway.accounts == old(gateway.accounts)
    ensures var k := IssuedCount(|rows|, errors);
      && gateway.transfers == old(gateway.transfers) + TransfersFor(rows, transferGroup)[..k]
      && (k == |rows| ==> err.None?)
      && (k < |rows| ==> err == errors(k))
  {
    var i := 0;
    while i < |rows|
      invariant 0 <= i <= |rows|
      invariant forall j :: 0 <= j < i ==> errors(j).None?
      invariant gateway.transfers == old(gateway.transfers) + TransfersFor(rows, transferGroup)[..i]
      invariant gateway.sessions == old(gateway.sessions) && gateway.accounts == old(gateway.accounts)
    {
      var e := gateway.CreateTransfer(TransferFor(rows[i], transferGroup), errors(i));
      if e.Some? {
        IssuedCountAtFailure(|rows|, errors, i);
        return e;
      }
      TransfersPrefixStep(rows, transferGroup, i);
      i := i + 1;
    }
    assert TransfersFor(rows, transferGroup)[..i] == TransfersFor(rows, transferGroup);
    return None;
  }

  /** The checkout.session.completed branch. */
  method SettleSession(store: Store, gateway: PaymentGateway, sessionId: string,
                       metadata: map<string, string>, oracles: SettlementOracles) returns (resp: Response)
    modifies store, gateway
    ensures store.notes == old(store.notes) && store.ratings == old(store.ratings)
    ensures store.profiles == old(store.profiles)
    ensures gateway.sessions == old(gateway.sessions) && gateway.accounts == old(gateway.accounts)
    ensures "note_ids" !in metadata ==>
      resp == Response(400, ErrorBody(MissingNoteIdsMessage))
      && store.orders == old(store.orders) && gateway.transfers == old(gateway.transfers)
    ensures "note_ids" in metadata && oracles.ordersUpdateError.Some? ==>
      resp == Response(400, ErrorBody(oracles.ordersUpdateError.value))
      && store.orders == old(store.orders) && gateway.transfers == old(gateway.transfers)
    ensures "note_ids" in metadata && oracles.ordersUpdateError.None? ==>
      store.orders == MarkCompleted(old(store.orders), sessionId)
    ensures "note_ids" in metadata && oracles.ordersUpdateError.None? && oracles.orderRowsMissing ==>
      resp == Response(200, ReceivedBody) && gateway.transfers == old(gateway.transfers)
    ensures "note_ids" in metadata && oracles.ordersUpdateError.None? && !oracles.orderRowsMissing
            && oracles.intentReply.Err? ==>
      resp == Response(400, ErrorBody(oracles.intentReply.message))
      && gateway.transfers == old(gateway.transfers)
    ensures "note_ids" in metadata && oracles.ordersUpdateError.None? && !oracles.orderRowsMissing
            && oracles.intentReply.Ok? ==>
      var rows := SessionOrderRows(old(store.orders), store.notes, store.profiles, sessionId);
      var k := IssuedCount(|rows|, oracles.transferError);
      && gateway.transfers == old(gateway.transfers) + TransfersFor(rows, oracles.intentReply.value)[..k]
      && (k == |rows| ==> resp == Response(200, ReceivedBody))
      && (k < |rows| ==> resp == Response(400, ErrorBody(oracles.transferError(k).value)))
  {
    if "note_ids" !in metadata {
      return Response(400, ErrorBody(MissingNoteIdsMessage));
    }
    var err := store.CompleteSessionOrders(sessionId, oracles.ordersUpdateError);
    if err.Some? {
      return Response(400, ErrorBody(err.value));
    }
    RowsIgnoreCompletion(old(store.orders), store.notes, store.profiles, sessionId);
    var selected := store.SelectSessionOrderRows(sessionId, oracles.orderRowsMissing);
    if selected.None? {
      return Response(200, ReceivedBody);
    }
    if oracles.intentReply.Err? {
      return Response(400, ErrorBody(oracles.intentReply.message));
    }
    var failed := IssueTransfers(gateway, selected.value, oracles.intentReply.value, oracles.transferError);
    if failed.Some? {
      return Response(400, ErrorBody(failed.value));
    }
    return Response(200, ReceivedBody);
  }

  method HandleWebhook(store: Store, gateway: PaymentGateway, signature: Option<string>,
                       oracles: SettlementOracles) returns (resp: Response)
    modifies store, gateway
    ensures store.notes == old(store.notes) && store.ratings == old(store.ratings)
    ensures gateway.sessions == old(gateway.sessions) && gateway.accounts == old(gateway.accounts)
    ensures Missing(signature) ==>
      resp == Response(400, TextBody(NoSignatureText))
      && store.orders == old(store.orders) && store.profiles == old(store.profiles)
      && gateway.transfers == old(gateway.transfers)
    ensures !Missing(signature) && oracles.event.Err? ==>
      resp == Response(400, ErrorBody(oracles.event.message))
      && store.orders == old(store.orders) && store.profiles == old(store.profiles)
      && gateway.transfers == old(gateway.transfers)
    ensures !Missing(signature) && oracles.event.Ok? && oracles.event.value.SessionCompleted? ==>
      store.profiles == old(store.profiles)
    ensures !Missing(signature) && oracles.event.Ok? && oracles.event.value.SessionCompleted? ==>
      var ev := oracles.event.value;
      "note_ids" !in ev.metadata ==>
        resp == Response(400, ErrorBody(MissingNoteIdsMessage))
        && store.orders == old(store.orders) && gateway.transfers == old(gateway.transfers)
    ensures !Missing(signature) && oracles.event.Ok? && oracles.event.value.SessionCompleted? ==>
      var ev := oracles.event.value;
      "note_ids" in ev.metadata && oracles.ordersUpdateError.Some? ==>
        resp == Response(400, ErrorBody(oracles.ordersUpdateError.value))
        && store.orders == old(store.orders) && gateway.transfers == old(gateway.transfers)
    ensures !Missing(signature) && oracles.event.Ok? && oracles.event.value.SessionCompleted? ==>
      var ev := oracles.event.value;
      "note_ids" in ev.metadata && oracles.ordersUpdateError.None? ==>
        store.orders == MarkCompleted(old(store.orders), ev.sessionId)
    ensures !Missing(signature) && oracles.event.Ok? && oracles.event.value.SessionCompleted? ==>
      var ev := oracles.event.value;
      "note_ids" in ev.metadata && oracles.ordersUpdateError.None? && oracles.orderRowsMissing ==>
        resp == Response(200, ReceivedBody) && gateway.transfers == old(gateway.transfers)
    ensures !Missing(signature) && oracles.event.Ok? && oracles.event.value.SessionCompleted? ==>
      var ev := oracles.event.value;
      "note_ids" in ev.metadata && oracles.ordersUpdateError.None? && !oracles.orderRowsMissing
      && oracles.intentReply.Err? ==>
        resp == Response(400, ErrorBody(oracles.intentReply.message))
        && gateway.transfers == old(gateway.transfers)
    ensures !Missing(signature) && oracles.event.Ok? && oracles.event.value.SessionCompleted? ==>
      var ev := oracles.event.value;
      "note_ids" in ev.metadata && oracles.ordersUpdateError.None? && !oracles.orderRowsMissing
      && oracles.intentReply.Ok? ==>
        var rows := SessionOrderRows(old(store.orders), store.notes, store.profiles, ev.sessionId);
        var k := IssuedCount(|rows|, oracles.transferError);
        && gateway.transfers == old(gateway.transfers) + TransfersFor(rows, oracles.intentReply.value)[..k]
        && (k == |rows| ==> resp == Response(200, ReceivedBody))
        && (k < |rows| ==> resp == Response(400, ErrorBody(oracles.transferError(k).value)))
    ensures !Missing(signature) && oracles.event.Ok? && oracles.event.value.AccountUpdated? ==>
      var ev := oracles.event.value;
      var enabled := FullyEnabled(ev.chargesEnabled, ev.detailsSubmitted, ev.payoutsEnabled);
      && store.orders == old(store.orders) && gateway.transfers == old(gateway.transfers)
      && (!enabled ==> resp == Response(200, ReceivedBody) && store.profiles == old(store.profiles))
      && (enabled && oracles.profileUpdateError.Some? ==>
            resp == Response(400, ErrorBody(oracles.profileUpdateError.value))
            && store.profiles == old(store.profiles))
      && (enabled && oracles.profileUpdateError.None? ==>
            resp == Response(200, ReceivedBody)
            && store.profiles == VerifyAccount(old(store.profiles), ev.accountId))
    ensures !Missing(signature) && oracles.event.Ok? && oracles.event.value.OtherEvent? ==>
      resp == Response(200, ReceivedBody)
      && store.orders == old(store.orders) && store.profiles == old(store.profiles)
      && gateway.transfers == old(gateway.transfers)
  {
    if Missing(signature) {
      return Response(400, TextBody(NoSignatureText));
    }
    if oracles.event.Err? {
      return Response(400, ErrorBody(oracles.event.message));
    }
    match oracles.event.value
    case SessionCompleted(sessionId, _, metadata) =>
      resp := SettleSession(store, gateway, sessionId, metadata, oracles);
    case AccountUpdated(accountId, chargesEnabled, detailsSubmitted, payoutsEnabled) =>
      if FullyEnabled(chargesEnabled, detailsSubmitted, payoutsEnabled) {
        var err := store.VerifyProfilesOf(accountId, oracles.profileUpdateError);
        if err.Some? {
          return Response(400, ErrorBody(err.value));
        }
      }
      return Response(200, ReceivedBody);
    case OtherEvent(_) =>
      return Response(200, ReceivedBody);
  }
}
