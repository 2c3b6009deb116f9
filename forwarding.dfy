/** The retry loop that forwards one authorized request to the upstream. The
    transport is the sequence of outcomes its attempts yield, in order; the
    timers become a running total of the backoff slept. */
module Forwarding {

  import opened RelayTypes

  /** What the loop ends with: the first deliverable HTTP response, or the
      error of the last failed attempt once every attempt has failed (none
      when no attempt was made). */
  datatype ForwardResult = Forwarded(status: int, body: string) | Exhausted(lastCause: Option<string>)

  /** How many attempts the loop allows: `maxRetries`, or none when that is
      zero or below. */
  function Attempts(maxRetries: int): nat
  {
    if maxRetries > 0 then maxRetries else 0
  }

  /** The backoff slept after the failed attempts 1..n: 250 ms times the
      attempt's number after each one, the last included. */
  function TotalBackoff(n: nat): nat
  {
    if n == 0 then 0 else TotalBackoff(n - 1) + BackoffUnitMs * n
  }

  /** The closed form: 250 * n * (n + 1) / 2 milliseconds. */
  lemma {:induction false} TotalBackoffClosedForm(n: nat)
    ensures 2 * TotalBackoff(n) == BackoffUnitMs * n * (n + 1)
  {
    if n > 0 {
      TotalBackoffClosedForm(n - 1);
      assert BackoffUnitMs * n * (n + 1) == BackoffUnitMs * (n - 1) * n + 2 * BackoffUnitMs * n;
    }
  }

  /** Each extra failed attempt sleeps strictly longer in total. */
  lemma {:induction false} TotalBackoffIncreasing(m: nat, n: nat)
    requires m < n
    ensures TotalBackoff(m) < TotalBackoff(n)
    decreases n
  {
    if m < n - 1 {
      TotalBackoffIncreasing(m, n - 1);
    }
  }

  /** An attempt succeeds when it yields an HTTP response whose status the
      inbound reply can carry. Writing the reply with any other status throws
      inside the same `try` as the upstream call, so that attempt fails too. */
  predicate Delivered(outcome: Outcome)
  {
    outcome.Response? && Sendable(outcome.status)
  }

  /** The error a failed attempt leaves as the last error. */
  function CauseOf(outcome: Outcome): string
  {
    if outcome.Failure? then outcome.cause else InvalidStatusError
  }

  /** The first `n` attempts all fail. */
  predicate AllFail(outcomes: seq<Outcome>, n: nat)
    requires n <= |outcomes|
  {
    forall k :: 0 <= k < n ==> !Delivered(outcomes[k])
  }

  /** Attempt k+1 is the first that succeeds. */
  predicate FirstResponseAt(outcomes: seq<Outcome>, k: nat)
    requires k < |outcomes|
  {
    Delivered(outcomes[k]) && AllFail(outcomes, k)
  }

  /** Tries the upstream GET at most `maxRetries` times, consuming one outcome
      per attempt. The first HTTP response whose status can be written back
      ends the loop and is returned as it came; each failure, a response with
      a status that cannot be written included, is recorded as the last error and is
      followed by a sleep of 250 ms times the attempt's number, after the final
      attempt too. `sent` lists the requests issued, `slept` the total backoff. */
  method Forward(url: string, cfg: Config, outcomes: seq<Outcome>)
    returns (result: ForwardResult, sent: seq<Get>, slept: nat)
    requires cfg.maxRetries <= |outcomes|
    ensures 1 <= |sent| <= Attempts(cfg.maxRetries) || (sent == [] && result.Exhausted?)
    ensures forall g :: g in sent ==> g == Get(url, cfg.requestTimeoutMs, UserAgent)
    ensures result.Forwarded? ==>
      FirstResponseAt(outcomes, |sent| - 1) &&
      result == Forwarded(outcomes[|sent| - 1].status, outcomes[|sent| - 1].body) &&
      slept == TotalBackoff(|sent| - 1)
    ensures result.Exhausted? ==>
      |sent| == Attempts(cfg.maxRetries) && AllFail(outcomes, |sent|) &&
      slept == TotalBackoff(|sent|) &&
      result.lastCause == (if sent == [] then None else Some(CauseOf(outcomes[|sent| - 1])))
    ensures result.Exhausted? <==> AllFail(outcomes, Attempts(cfg.maxRetries))
    ensures forall k :: 0 <= k < Attempts(cfg.maxRetries) && FirstResponseAt(outcomes, k) ==>
      |sent| == k + 1 && result == Forwarded(outcomes[k].status, outcomes[k].body)
  {
    var lastErr: Option<string> := None;
    sent, slept := [], 0;
    var attempt := 1;
    while attempt <= cfg.maxRetries
      invariant 1 <= attempt <= Attempts(cfg.maxRetries) + 1
      invariant |sent| == attempt - 1
      invariant forall g :: g in sent ==> g == Get(url, cfg.requestTimeoutMs, UserAgent)
      invariant AllFail(outcomes, attempt - 1)
      invariant slept == TotalBackoff(attempt - 1)
      invariant lastErr == if attempt == 1 then None else Some(CauseOf(outcomes[attempt - 2]))
    {
      sent := sent + [Get(url, cfg.requestTimeoutMs, UserAgent)];
      var outcome := outcomes[attempt - 1];
      if Delivered(outcome) {
        result := Forwarded(outcome.status, outcome.body);
        return;
      }
      lastErr := Some(CauseOf(outcome));
      slept := slept + BackoffUnitMs * attempt;
      attempt := attempt + 1;
    }
    result := Exhausted(lastErr);
  }
}
