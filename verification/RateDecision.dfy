/** The decision a limiter hands to its caller (pkg/ratelimit/model.go). */
module RateDecision {
  import opened RateMath

  datatype Outcome = Allowed | RateLimited | DegradedOpen

  /** retryAfter is in nanoseconds. */
  datatype Decision = Decision(allowed: bool, retryAfter: int, retryAfterSeconds: int, policy: Policy, outcome: Outcome)

  function AllowedDecision(policy: Policy, outcome: Outcome): Decision {
    Decision(true, 0, 0, policy, outcome)
  }

  function LimitedDecision(policy: Policy, retryAfter: int, seconds: int): Decision {
    Decision(false, retryAfter, if seconds < 1 then 1 else seconds, policy, RateLimited)
  }
}
