# HTTP-to-HTTPS relay: a Dafny model

The relay takes plain HTTP requests on `/relay/<key>/<tail>`. It checks the
key against a configured shared secret. It rebuilds an HTTPS URL from a
configured base, the tail and the query, and fetches that URL with retries.
It then hands the upstream's status and body back, meant to be passed
through as they came (see "Left out" for what a parsed body does). A per-address
rate limiter sits in front of every route. `/health` answers `200 OK`, and
every other method or path answers `404`.

The model has four modules:

- `RelayTypes` (`relay_types.dfy`): the parsed configuration, the outcome of
  one upstream attempt, the outbound GET and the fixed replies.
- `TargetUrl` (`target_url.dfy`): the pure functions behind the credential-free
  part of the pipeline. These are stripping trailing slashes from the base,
  splitting the request URL at `?` to get the query, and assembling the
  upstream URL.
- `Forwarding` (`forwarding.dfy`): the retry loop, written as a method with a
  `while` loop. Its invariants track attempts made, the last error and the
  backoff slept so far.
- `Server` (`server.dfy`): the credential check and the handler. The handler
  puts the limiter verdict, the route, the credential check and the loop
  together into one reply.

The transport is a sequence of per-attempt outcomes: an HTTP response of any
status with its body as text, or a transport failure. Timers become a running total of milliseconds
slept. The limiter becomes a boolean verdict. The route comes already
classified by the router.

## Model

| member | source | states |
|---|---|---|
| `TargetUrl.StripTrailingSlashes` | server.js:40 | the result is the longest prefix of the base that does not end in `/`; everything removed is `/` |
| `TargetUrl.Split` | server.js:39 | splitting at `?` gives at least one piece, no piece holds `?`, joining the pieces with `?` gives the URL back, and there is more than one piece exactly when the URL holds a `?` |
| `TargetUrl.QueryBetweenFirstAndSecondMark` | server.js:39 | for a URL `pre ? q rest` with no `?` in `pre` or `q` and `rest` empty or starting with `?`, the query is exactly `q`: the text between the first `?` and the next `?` or the end |
| `TargetUrl.QueryOfAnyUrl` | server.js:39 | for every URL whose first `?` is at position `i`, the query is the text from `i + 1` up to the next `?` or the end, which the lemma returns as `j` |
| `TargetUrl.QueryHasNoMark` | server.js:39 | a URL without `?` has an empty query, and a query never contains `?` |
| `TargetUrl.SecondMarkDropsRest` | server.js:39 | `/relay/k/p?a=1?b=2` yields the query `a=1`; the text after the second `?` is lost |
| `TargetUrl.ExtraTrailingSlashIgnored` | server.js:40 | a base with one more trailing `/` builds the same upstream URL |
| `TargetUrl.BuildUrlLayout` | server.js:38-40 | the upstream URL is the stripped base, then one `/`, then the tail verbatim; it ends there exactly when the query is empty, and otherwise what follows is `?` and the query |
| `TargetUrl.QueryRoundTrip` | server.js:39-40 | when neither base nor tail holds `?`, the query read back from the built URL is the query taken from the inbound URL |
| `TargetUrl.ExampleUrl` | server.js:38-40 | base `https://example.com/api/`, tail `foo/bar` and query `a=1&b=2` give `https://example.com/api/foo/bar?a=1&b=2` |
| `Forwarding.TotalBackoffClosedForm` | server.js:60-61 | the backoff after `n` failed attempts totals `250 * n * (n + 1) / 2` ms |
| `Forwarding.TotalBackoffIncreasing` | server.js:61 | more failed attempts always sleep strictly longer in total |
| `Forwarding.Forward` | server.js:43-65 | at most `MAX_RETRIES` GETs, and none when that is zero or below, all to the same URL with the relay's timeout and User-Agent. The first HTTP response whose status (of any class) can be written back ends the loop and is returned unchanged, after the backoff of the earlier failures only. A transport failure, or a response whose status the reply cannot carry (below 100 or above 999, where the send throws inside the same `try`), fails the attempt. The loop is exhausted exactly when every allowed attempt fails. Then it has made exactly `MAX_RETRIES` calls (none when that is zero or below), slept after every one of them including the last, and kept the last failure's error |
| `Server.Handle` | server.js:22-73 | a refused caller gets 429 on every path, `/health` included, with no outbound call. An admitted `/health` gets `200 OK` and an unmatched request `404 Not found`. An empty shared key or a different key gets 401 with no call and no sleep. Outbound calls happen exactly when the caller is admitted, the key equals a non-empty shared key and `MAX_RETRIES` is positive. Every call goes to the built URL. Total failure gives 504 `Gateway Timeout via relay`, and the first deliverable response passes through verbatim. Every reply carries a status between 100 and 999. A 500 reply always comes from an upstream response with status 500 and that body; the relay's own 500 path is never taken |
| `Server.UnavailableUpstreamPassesThrough` | server.js:44-57 | an upstream 503 on the first attempt reaches the caller with its body after exactly one call and no backoff |
| `Server.UnsendableStatusIsRetried` | server.js:44-65 | an upstream status of 42 on the first attempt, followed by two transport failures, is retried like a failure: 504 after three calls and 1500 ms of backoff |

## Left out

- Express, morgan, the listener and `console` logging (server.js:1-7, 18, 64, 67, 75-77) are wiring with no logic to model.
- The rate limiter's internals (server.js:21-23) belong to an external library whose code is not part of this model. Only its admit/refuse verdict enters, as a boolean. A limiter error other than a refusal also ends in 429 in the source, and the boolean covers that too.
- Axios, TLS and the network (server.js:46-55) become a sequence of per-attempt outcomes. `Handle` and `Forward` require that sequence to hold at least `MAX_RETRIES` outcomes, because the transport yields one per call.
- Real timers and `await` (server.js:61) become a running total of milliseconds slept. Concurrency between requests is not modelled.
- Environment parsing with `Number(...)` (server.js:10-15) is not modelled, and the configuration arrives parsed. A `MAX_RETRIES` that parses to `NaN` makes `attempt <= MAX_RETRIES` false at once, just as a value of zero or below does. A fractional value is not modelled. `CONNECT_TIMEOUT_MS` is parsed by the source but never used, so it has no counterpart.
- Express route matching for `/relay/:key/*` and the percent-decoding of its parameters (server.js:31, 38) are not modelled. The route arrives classified, with the key, the captured tail (absent or present) and the original request URL. Because the router decodes the tail, a tail may contain `?`. That is why `QueryRoundTrip` requires a tail without `?`.
- The outer `catch` that answers 500 `Relay error` (server.js:66-68) covers lines 33-65, the loop included. The two calls there that can throw, the upstream GET (server.js:46) and the reply with the upstream's status (server.js:57), both sit inside the inner `try` (server.js:45-58), whose `catch` turns them into a failed attempt. The remaining code cannot throw on already-parsed strings, so no path of `Handle` reaches the outer `catch`. The reply is defined as `RelayTypes.RelayError`, and `Handle` states that any 500 it returns came from the upstream.
- Forward, Handle: an upstream body is modelled as the text the transport returned, passed to the reply as it is. The HTTP client in the source parses a body that reads as JSON by default, and `res.send` (server.js:57) treats a non-string differently. A number becomes the reply's status under Express 4: an upstream `200` with body `503` answers 503, and body `42` makes the send throw, so the attempt is retried. An object goes out re-serialised, a JSON string goes out without its quotes, and `null` goes out empty. Express also drops the body of 204 and 304 replies and answers a fresh conditional GET with 304. None of this is captured: the model's reply status is always the upstream status, and its body the upstream text.
- Which statuses a reply can carry comes from Node's HTTP server, whose code is not part of this model. The model takes its documented rule: writing a status below 100 or above 999 throws.
- Express also routes `HEAD` requests to `app.get` handlers. This model takes the route shape as given and does not distinguish methods.
