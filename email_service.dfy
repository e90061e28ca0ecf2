/** The email sender (`EmailService`, src/main.ts:116-139).

    The delivery client and the network are not modelled: the client's send
    call is a function from the server token the service was constructed with
    and the payload to either a response or the message of the error it threw. */
module Sender {
  import opened Wrappers

  const SendFailed := "Failed to send email: "

  /** The message handed to the delivery client: address fields, subject and
      the two optional body fields of the client's message type. */
  datatype EmailPayload = EmailPayload(
    to: string,
    from: string,
    subject: string,
    textBody: Option<string>,
    htmlBody: Option<string>)

  /** The part of the client's response the action reads. */
  datatype SendResponse = SendResponse(errorCode: int)

  /** `client.sendEmail` of a client built with a given server token. */
  type Client = (string, EmailPayload) -> Result<SendResponse>

  /** `sendEmail(payload)` on a service built with `serverToken`: the payload
      goes to the client as it is; a response means success exactly when its
      error code is 0, and a thrown error is re-raised behind the send prefix. */
  function SendEmail(serverToken: string, payload: EmailPayload, client: Client): (r: Result<bool>)
    ensures r.Ok? <==> client(serverToken, payload).Ok?
    ensures r.Ok? ==> (r.value <==> client(serverToken, payload).value.errorCode == 0)
    ensures r.Err? ==> r.error == SendFailed + client(serverToken, payload).error
  {
    match WithPrefix(SendFailed, client(serverToken, payload))
    case Ok(response) => Ok(response.errorCode == 0)
    case Err(message) => Err(message)
  }
}
