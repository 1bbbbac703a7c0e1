/** Connected-account creation (supabase/functions/create-connect-account): create an Express
    account for the seller and record its id on the seller's profile with status 'pending'. */
module ConnectAccount {
  import opened Wrappers
  import opened Http
  import opened Ledger
  import opened Gateway

  datatype ConnectRequest = ConnectRequest(httpMethod: string, userId: string, email: string)

  const ProfileUpdateFailedMessage := "Failed to update profile with Stripe account information"

  /** The account accounts.create is asked for, given the id Stripe assigns: Express, Japan,
      an individual, manual payouts. */
  function AccountFor(email: string): (f: string -> ConnectedAccount)
    ensures forall id :: f(id).id == id && f(id).email == email
    ensures forall id :: f(id).accountType == "express" && f(id).country == "JP"
    ensures forall id :: f(id).businessType == "individual" && f(id).payoutInterval == "manual"
  {
    id => ConnectedAccount(id, "express", "JP", email, "individual", "manual")
  }

  method CreateConnectAccount(store: Store, gateway: PaymentGateway, req: ConnectRequest,
                              accountReply: Result<string>, updateError: Option<string>) returns (resp: Response)
    modifies store, gateway
    ensures store.notes == old(store.notes) && store.orders == old(store.orders) && store.ratings == old(store.ratings)
    ensures gateway.sessions == old(gateway.sessions) && gateway.transfers == old(gateway.transfers)
    ensures req.httpMethod == OPTIONS ==>
      resp == Response(204, NoBody)
      && store.profiles == old(store.profiles) && gateway.accounts == old(gateway.accounts)
    ensures req.httpMethod != OPTIONS && accountReply.Err? ==>
      resp == Response(500, ErrorBody(accountReply.message))
      && store.profiles == old(store.profiles) && gateway.accounts == old(gateway.accounts)
    ensures req.httpMethod != OPTIONS && accountReply.Ok? ==>
      && gateway.accounts == old(gateway.accounts) + [AccountFor(req.email)(accountReply.value)]
      && (updateError.Some? ==>
            resp == Response(500, ErrorBody(ProfileUpdateFailedMessage)) && store.profiles == old(store.profiles))
      && (updateError.None? ==>
            resp == Response(200, AccountBody(accountReply.value))
            && store.profiles == SetAccountPending(old(store.profiles), req.userId, accountReply.value))
  {
    if req.httpMethod == OPTIONS {
      return Response(204, NoBody);
    }
    var created := gateway.CreateAccount(AccountFor(req.email), accountReply);
    if created.Err? {
      return Response(500, ErrorBody(created.message));
    }
    var err := store.UpdateProfileAccount(req.userId, created.value, updateError);
    if err.Some? {
      return Response(500, ErrorBody(ProfileUpdateFailedMessage));
    }
    return Response(200, AccountBody(created.value));
  }

  /** The profile update touches only the requesting user's profile, and leaves it 'pending'
      with the new account id whatever its status was before: a verified seller who creates
      a second account is demoted. */
  lemma PendingAfterConnect(profiles: map<string, Profile>, userId: string, accountId: string)
    ensures SetAccountPending(profiles, userId, accountId).Keys == profiles.Keys
    ensures userId in profiles ==>
      SetAccountPending(profiles, userId, accountId)[userId] == Profile(Some(accountId), Some(AccountPending))
    ensures forall u :: u in profiles && u != userId ==> SetAccountPending(profiles, userId, accountId)[u] == profiles[u]
  {
  }

  /** After connecting, the account.updated webhook for the new account is what brings the
      profile back to 'verified'. */
  lemma VerifiedAgainAfterWebhook(profiles: map<string, Profile>, userId: string, accountId: string)
    requires userId in profiles
    ensures VerifyAccount(SetAccountPending(profiles, userId, accountId), accountId)[userId].stripeAccountStatus
         == Some(AccountVerified)
  {
  }
}
