/** Onboarding links (supabase/functions/create-account-link): validate the account id and origin,
    then ask Stripe for an account_onboarding link that returns to the dashboard. */
module AccountLink {
  import opened Wrappers
  import opened JsText
  import opened Http

  /** The JSON body's accountId and origin; a missing or empty field is the empty string. */
  datatype LinkRequest = LinkRequest(httpMethod: string, accountId: string, origin: string)

  datatype LinkParams = LinkParams(account: string, refreshUrl: string, returnUrl: string, linkType: string)

  const AccountIdRequiredMessage := "Account ID is required"
  const OriginRequiredMessage := "Origin is required"
  const RefreshPath := "/dashboard?refresh=true"
  const ReturnPath := "/dashboard?setup=success"

  /** Validation, in the source's order: the account id first, then the origin. */
  function LinkParamsFor(accountId: string, origin: string): (r: Result<LinkParams>)
    ensures accountId == "" ==> r == Err(AccountIdRequiredMessage)
    ensures accountId != "" && origin == "" ==> r == Err(OriginRequiredMessage)
    ensures accountId != "" && origin != "" ==>
      && r.Ok? && r.value.account == accountId && r.value.linkType == "account_onboarding"
      && StartsWith(r.value.refreshUrl, origin) && StartsWith(r.value.returnUrl, origin)
      && r.value.refreshUrl[|origin|..] == RefreshPath && r.value.returnUrl[|origin|..] == ReturnPath
  {
    if accountId == "" then Err(AccountIdRequiredMessage)
    else if origin == "" then Err(OriginRequiredMessage)
    else
      Ok(LinkParams(accountId, origin + RefreshPath, origin + ReturnPath, "account_onboarding"))
  }

  /** The handler; `stripe` is accountLinks.create's reply (the link's url, or its error) for the
      parameters it is given. */
  function CreateAccountLink(req: LinkRequest, stripe: LinkParams -> Result<string>): (resp: Response)
    ensures req.httpMethod == OPTIONS ==> resp == Response(204, NoBody)
    ensures req.httpMethod != OPTIONS && LinkParamsFor(req.accountId, req.origin).Err? ==>
      resp == Response(400, ErrorBody(LinkParamsFor(req.accountId, req.origin).message))
    ensures req.httpMethod != OPTIONS && LinkParamsFor(req.accountId, req.origin).Ok? ==>
      var reply := stripe(LinkParamsFor(req.accountId, req.origin).value);
      && (reply.Ok? ==> resp == Response(200, UrlBody(reply.value)))
      && (reply.Err? ==> resp == Response(400, ErrorBody(reply.message)))
    ensures resp.status in {200, 204, 400}
  {
    if req.httpMethod == OPTIONS then Response(204, NoBody)
    else match LinkParamsFor(req.accountId, req.origin)
      case Err(message) => Response(400, ErrorBody(message))
      case Ok(params) =>
        match stripe(params)
        case Ok(url) => Response(200, UrlBody(url))
        case Err(message) => Response(400, ErrorBody(message))
  }

  /** A well-formed request never reaches Stripe without both fields: whatever Stripe answers,
      an empty account id is rejected with its own message. */
  lemma AccountIdCheckedFirst(req: LinkRequest, stripe: LinkParams -> Result<string>)
    requires req.httpMethod != OPTIONS && req.accountId == ""
    ensures CreateAccountLink(req, stripe) == Response(400, ErrorBody(AccountIdRequiredMessage))
  {
  }
}
