/** The account status check (supabase/functions/check-account-status): retrieve the connected
    account and report 'verified' exactly when charges, details and payouts are all enabled. */
module AccountStatusCheck {
  import opened Wrappers
  import opened Http
  import opened Ledger
  import Settlement

  /** The three flags of a retrieved Stripe account that the check reads. */
  datatype AccountFlags = AccountFlags(chargesEnabled: bool, detailsSubmitted: bool, payoutsEnabled: bool)

  function StatusOf(flags: AccountFlags): (s: AccountStatus)
    ensures s == AccountVerified <==> flags.chargesEnabled && flags.detailsSubmitted && flags.payoutsEnabled
    ensures s == AccountPending <==> !(flags.chargesEnabled && flags.detailsSubmitted && flags.payoutsEnabled)
  {
    if flags.chargesEnabled && flags.detailsSubmitted && flags.payoutsEnabled then AccountVerified else AccountPending
  }

  /** The handler; `retrieved` is what accounts.retrieve returns for the body's accountId, or the
      message of the error it (or the body parse) throws. */
  function CheckAccountStatus(httpMethod: string, retrieved: Result<AccountFlags>): (resp: Response)
    ensures httpMethod == OPTIONS ==> resp == Response(204, NoBody)
    ensures httpMethod != OPTIONS && retrieved.Err? ==> resp == Response(500, ErrorBody(retrieved.message))
    ensures httpMethod != OPTIONS && retrieved.Ok? ==>
      && resp.status == 200
      && (resp.body == StatusBody("verified") <==>
            retrieved.value.chargesEnabled && retrieved.value.detailsSubmitted && retrieved.value.payoutsEnabled)
      && (resp.body == StatusBody("verified") || resp.body == StatusBody("pending"))
  {
    if httpMethod == OPTIONS then Response(204, NoBody)
    else match retrieved
      case Err(message) => Response(500, ErrorBody(message))
      case Ok(flags) => Response(200, StatusBody(StatusText(StatusOf(flags))))
  }

  /** The check and the account.updated webhook use the same criterion: the check reports
      'verified' exactly for the accounts the webhook would promote. */
  lemma AgreesWithWebhook(flags: AccountFlags)
    ensures CheckAccountStatus(POST, Ok(flags)) == Response(200, StatusBody("verified"))
        <==> Settlement.FullyEnabled(flags.chargesEnabled, flags.detailsSubmitted, flags.payoutsEnabled)
  {
  }
}
