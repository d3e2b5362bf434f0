/** The request and response shapes the handlers see, without the framework. */
module Http {
  import opened Wrappers
  import opened Text
  import opened Store

  const OctetStream := "application/octet-stream"
  const ApplicationJson := "application/json"

  /** Response bodies: raw bytes, or one of the JSON objects the service sends. */
  datatype Body =
    | NoBody
    | Blob(data: Bytes)
    | ErrorJson(message: string)   // {"error": message}
    | WrittenJson(written: int)    // {"written": ms}
    | SecretJson(secret: string)   // {"secret": token}
    | PingJson                     // {"ping": "pong"}

  datatype Response =
    | Response(status: int, body: Body, etag: Option<string>, contentType: Option<string>)
      /** An unexpected store error: a Go panic, or a rejected promise in the TypeScript service. */
    | Crash

  function Error(status: int, message: string): Response {
    Response(status, ErrorJson(message), None, Some(ApplicationJson))
  }

  function Empty(status: int): Response {
    Response(status, NoBody, None, None)
  }

  function Json(body: Body): Response {
    Response(200, body, None, Some(ApplicationJson))
  }

  /**
   * The parts of an HTTP request the core reads. A header that is not
   * sent reads as "" (fiber's c.Get).
   */
  datatype Request = Request(
    verb: string,
    path: string,
    authorization: string,
    ifNoneMatch: string,
    contentType: string,
    body: Bytes)

  /** What a handler answers and the store it leaves behind. */
  datatype Outcome = Outcome(resp: Response, db: Db)

  /** The result of one outbound call to Discord. */
  datatype ProviderReply =
    | TransportError         // the request itself failed
    | ErrorState             // Discord answered with an error status
    | Success(value: string) // the access token, or the user id

  /** The result of reading the random source into a 48-byte buffer. */
  datatype RandomReply = RandomFailed | RandomBytes(bytes: Bytes)
}
