/** Values shared by the relay's components: its configuration, the outcome of
    one upstream attempt, the outbound request it issues and the response it
    sends back to the caller. */
module RelayTypes {

  datatype Option<+T> = None | Some(value: T)

  /** The process-wide settings, already read from the environment and parsed.
      `maxRetries` is an integer of any sign: a value of zero or below makes
      the retry loop run no attempt at all. */
  datatype Config = Config(
    targetBase: string,
    requestTimeoutMs: int,
    maxRetries: int,
    sharedKey: string)

  /** What the transport yields for one attempt: an HTTP response of any
      status (every status is accepted), or a transport-level failure. */
  datatype Outcome = Response(status: int, body: string) | Failure(cause: string)

  /** One outbound GET as the relay issues it. */
  datatype Get = Get(url: string, timeoutMs: int, userAgent: string)

  /** The status and body sent back to the inbound caller. */
  datatype Reply = Reply(status: int, body: string)

  /** Whether a reply can carry the status: writing the status line of a
      reply throws for a code below 100 or above 999. */
  predicate Sendable(status: int)
  {
    100 <= status <= 999
  }

  /** The error recorded when writing a reply with an unsendable status throws. */
  const InvalidStatusError: string := "Invalid status code"

  /** The User-Agent header on every outbound request. */
  const UserAgent: string := "IrroHTTPRelay/1.0"

  /** Base unit of the linear backoff, in milliseconds. */
  const BackoffUnitMs: nat := 250

  const TooManyRequests := Reply(429, "Too Many Requests")
  const HealthOk := Reply(200, "OK")
  const Unauthorized := Reply(401, "Unauthorized")
  const GatewayTimeout := Reply(504, "Gateway Timeout via relay")
  const RelayError := Reply(500, "Relay error")
  const NotFound := Reply(404, "Not found")
}
