/** The HTTP responses the serverless handlers produce, reduced to status and JSON body. */
module Http {

  datatype Body =
    | NoBody
    | ErrorBody(error: string)          // { error: message }
    | SessionBody(sessionId: string)    // { sessionId }
    | ReceivedBody                      // { received: true }
    | StatusBody(status: string)        // { status }
    | UrlBody(url: string)              // { url }
    | AccountBody(accountId: string)    // { accountId }
    | TextBody(text: string)            // a plain-text body

  datatype Response = Response(status: int, body: Body)

  const OPTIONS := "OPTIONS"
  const POST := "POST"
}
