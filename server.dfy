/** The request handling of the relay: the rate-limit gate in front of every
    route, the health probe, the credential check, the forwarding pipeline and
    the fallback for every other method or path. */
module Server {

  import opened RelayTypes
  import opened TargetUrl
  import opened Forwarding

  /** The shape the router gave the inbound request: the health probe, a
      `GET /relay/<key>/<tail>` with its original URL, or anything else. */
  datatype Route = Health | Relay(key: string, tail: Option<string>, url: string) | Unmatched

  /** The relay refuses a credential when no shared key is configured (it
      fails closed) or when the presented key differs from it in any way. */
  predicate Denied(sharedKey: string, key: string)
  {
    sharedKey == [] || key != sharedKey
  }

  /** The URL every attempt of an authorized relay request goes to. */
  function Target(cfg: Config, route: Route): string
    requires route.Relay?
  {
    BuildUrl(cfg.targetBase, TailOf(route.tail), Query(route.url))
  }

  /** Handles one inbound request. `admitted` is the rate limiter's verdict for
      the caller's address, `outcomes` what the upstream yields attempt by
      attempt. Returns the reply, the outbound requests issued and the total
      backoff slept. */
  method Handle(cfg: Config, admitted: bool, route: Route, outcomes: seq<Outcome>)
    returns (reply: Reply, sent: seq<Get>, slept: nat)
    requires cfg.maxRetries <= |outcomes|
    // The limiter runs before routing: a refused caller gets 429 on every path.
    ensures !admitted ==> reply == TooManyRequests && sent == [] && slept == 0
    ensures admitted && route.Health? ==> reply == HealthOk && sent == [] && slept == 0
    ensures admitted && route.Unmatched? ==> reply == NotFound && sent == [] && slept == 0
    // An unauthorized request is refused before the loop: no attempt, no sleep.
    ensures admitted && route.Relay? && Denied(cfg.sharedKey, route.key) ==>
      reply == Unauthorized && sent == [] && slept == 0
    ensures admitted && route.Relay? && cfg.sharedKey == [] ==> reply == Unauthorized
    ensures sent != [] <==>
      admitted && route.Relay? && cfg.sharedKey != [] && route.key == cfg.sharedKey && cfg.maxRetries > 0
    ensures |sent| <= Attempts(cfg.maxRetries)
    ensures route.Relay? ==> forall g :: g in sent ==> g == Get(Target(cfg, route), cfg.requestTimeoutMs, UserAgent)
    // Every attempt failed: 504 after exactly maxRetries attempts and a sleep after each.
    ensures admitted && route.Relay? && !Denied(cfg.sharedKey, route.key)
              && AllFail(outcomes, Attempts(cfg.maxRetries)) ==>
      reply == GatewayTimeout && |sent| == Attempts(cfg.maxRetries) &&
      slept == TotalBackoff(Attempts(cfg.maxRetries))
    // The first response whose status can be written back is passed through unchanged.
    ensures admitted && route.Relay? && !Denied(cfg.sharedKey, route.key) ==>
      forall k :: 0 <= k < Attempts(cfg.maxRetries) && FirstResponseAt(outcomes, k) ==>
        reply == Reply(outcomes[k].status, outcomes[k].body) && |sent| == k + 1 &&
        slept == TotalBackoff(k)
    // The relay never answers 500 itself: a 500 is an upstream reply passed through.
    ensures Sendable(reply.status)
    ensures reply.status == 500 ==> sent != [] && outcomes[|sent| - 1] == Response(500, reply.body)
  {
    if !admitted {
      return TooManyRequests, [], 0;
    }
    match route {
      case Health =>
        reply, sent, slept := HealthOk, [], 0;
      case Unmatched =>
        reply, sent, slept := NotFound, [], 0;
      case Relay(key, _, _) =>
        if Denied(cfg.sharedKey, key) {
          return Unauthorized, [], 0;
        }
        var result;
        result, sent, slept := Forward(Target(cfg, route), cfg, outcomes);
        reply := if result.Forwarded? then Reply(result.status, result.body) else GatewayTimeout;
    }
  }

  /** An upstream that answers 503 on the first attempt: the caller gets that
      503 and its body after exactly one outbound call and no backoff, even
      though further attempts were allowed and would have failed. */
  method UnavailableUpstreamPassesThrough(key: string) returns (reply: Reply, sent: seq<Get>, slept: nat)
    requires key != []
    ensures reply == Reply(503, "upstream busy") && |sent| == 1 && slept == 0
  {
    var cfg := Config("https://example.com/api/", 10000, 3, key);
    var outcomes := [Response(503, "upstream busy"), Failure("timeout"), Failure("timeout")];
    reply, sent, slept := Handle(cfg, true, Relay(key, Some("foo"), "/relay/" + key + "/foo"), outcomes);
    assert FirstResponseAt(outcomes, 0);
  }

  /** An upstream reply whose status cannot be written back makes the send
      throw inside the attempt's `try`: the attempt counts as failed, so with
      three allowed attempts that all fail the caller gets 504 after three
      calls and 250 + 500 + 750 ms of backoff. */
  method UnsendableStatusIsRetried(key: string) returns (reply: Reply, sent: seq<Get>, slept: nat)
    requires key != []
    ensures reply == GatewayTimeout && |sent| == 3 && slept == 1500
  {
    var cfg := Config("https://example.com/api/", 10000, 3, key);
    var outcomes := [Response(42, "x"), Failure("timeout"), Failure("timeout")];
    reply, sent, slept := Handle(cfg, true, Relay(key, Some("foo"), "/relay/" + key + "/foo"), outcomes);
    assert AllFail(outcomes, 3);
    assert TotalBackoff(3) == 1500 by {
      assert TotalBackoff(1) == 250;
      assert TotalBackoff(2) == 750;
    }
  }
}
