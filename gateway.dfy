/** The Stripe calls the handlers make: checkout sessions, transfers, connected accounts. The
    gateway's own behaviour is an oracle: each call is handed the reply Stripe would give. */
module Gateway {
  import opened Wrappers

  datatype LineItem = LineItem(currency: string, productName: string, unitAmount: int, quantity: int)

  datatype SessionParams = SessionParams(lineItems: seq<LineItem>, successUrl: string, cancelUrl: string,
                                         transferGroup: Option<string>, metadata: map<string, string>)

  datatype Session = Session(id: string, params: SessionParams)

  datatype Transfer = Transfer(amount: int, currency: string, destination: Option<string>, transferGroup: Option<string>)

  datatype ConnectedAccount = ConnectedAccount(id: string, accountType: string, country: string, email: string,
                                               businessType: string, payoutInterval: string)

  class PaymentGateway {
    var sessions: seq<Session>
    var transfers: seq<Transfer>
    var accounts: seq<ConnectedAccount>

    constructor ()
      ensures sessions == [] && transfers == [] && accounts == []
    {
      sessions, transfers, accounts := [], [], [];
    }

    /** checkout.sessions.create: reply is the new session's id or Stripe's error. */
    method CreateSession(params: SessionParams, reply: Result<string>) returns (r: Result<string>)
      modifies this
      ensures r == reply
      ensures sessions == if reply.Ok? then old(sessions) + [Session(reply.value, params)] else old(sessions)
      ensures transfers == old(transfers) && accounts == old(accounts)
    {
      r := reply;
      if reply.Ok? {
        sessions := sessions + [Session(reply.value, params)];
      }
    }

    /** transfers.create. */
    method CreateTransfer(t: Transfer, error: Option<string>) returns (err: Option<string>)
      modifies this
      ensures err == error
      ensures transfers == if error.None? then old(transfers) + [t] else old(transfers)
      ensures sessions == old(sessions) && accounts == old(accounts)
    {
      err := error;
      if error.None? {
        transfers := transfers + [t];
      }
    }

    /** accounts.create: reply is the new account's id or Stripe's error. */
    method CreateAccount(account: string -> ConnectedAccount, reply: Result<string>) returns (r: Result<string>)
      modifies this
      ensures r == reply
      ensures accounts == if reply.Ok? then old(accounts) + [account(reply.value)] else old(accounts)
      ensures sessions == old(sessions) && transfers == old(transfers)
    {
      r := reply;
      if reply.Ok? {
        accounts := accounts + [account(reply.value)];
      }
    }
  }
}
