/** The limiter that turns the shared bucket's answer into a decision, failing open. */
module DistributedLimiter {
  import opened Wrappers
  import opened RateMath
  import opened TokenBucket
  import opened RedisBackend
  import opened RateDecision

  datatype Limiter = Limiter(hasBackend: bool, policy: Policy)

  /** answer is what the backend returns when it is asked: the decision and the time to
      wait in nanoseconds. Nothing comes back from a nil limiter, which is dereferenced. */
  function Decide(limiter: Option<Limiter>, key: string, answer: Result<(bool, Int64), Error>): (r: Option<Decision>)
    ensures r.None? <==> limiter.None?
    ensures r.Some? ==> var (l, d) := (limiter.value, r.value);
      && d.policy == l.policy
      && (d.allowed <==> !(Usable(l, key) && answer.Ok? && !answer.value.0))
      && (d.outcome.DegradedOpen? <==> !(Usable(l, key) && answer.Ok?))
      && (d.outcome.RateLimited? <==> !d.allowed)
      && (d.allowed ==> d.retryAfter == d.retryAfterSeconds == 0)
      && (!d.allowed ==>
            && d.retryAfter == answer.value.1
            && d.retryAfterSeconds >= 1 && d.retryAfter < d.retryAfterSeconds * SECOND_NS
            && (d.retryAfterSeconds > 1 ==> d.retryAfter >= (d.retryAfterSeconds - 1) * SECOND_NS))
  {
    if limiter.None? then None
    else
      var policy := limiter.value.policy;
      if !Usable(limiter.value, key) then Some(AllowedDecision(policy, DegradedOpen))
      else match answer
        case Err(_) => Some(AllowedDecision(policy, DegradedOpen))
        case Ok((true, _)) => Some(AllowedDecision(policy, Allowed))
        case Ok((false, retryAfter)) => Some(LimitedDecision(policy, retryAfter, WholeSeconds(retryAfter) + 1))
  }

  predicate Usable(l: Limiter, key: string) {
    l.hasBackend && key != "" && l.policy.Valid()
  }

  /** int(d.Seconds()): truncation toward zero. */
  function WholeSeconds(nanos: int): int {
    if nanos >= 0 then nanos / SECOND_NS else -(-nanos / SECOND_NS)
  }

  /** The decision on a request the bucket has answered so. */
  function DecisionOn(p: Policy, key: string, reply: Reply): Decision
    requires p.Valid() && key != ""
  {
    Decide(Some(Limiter(true, p)), key, Decoded(Encoded(reply))).value
  }

  lemma Cancel(x: real, y: real, rate: real)
    requires rate > 0.0 && x * rate <= y * rate
    ensures x <= y
  {
  }

  lemma TokenFillsInTime(p: Policy, missing: real)
    requires p.Valid() && missing <= 1.0
    ensures missing / p.rate * 1_000_000_000.0 <= FillNanos(p)
  {
    var wait, full := missing / p.rate, FillNanos(p);
    hide FillNanos;
    assert wait * p.rate == missing;
    assert wait * 1_000_000_000.0 * p.rate == missing * 1_000_000_000.0;
    Cancel(wait * 1_000_000_000.0, full, p.rate);
  }

  /** The wait of an empty bucket for one token, in milliseconds. */
  function LongestWait(p: Policy): int
    requires p.Valid()
  {
    Ceil(1.0 / p.rate * 1000.0)
  }

  /** No bucket asks for a longer wait than an empty one. */
  lemma WaitsAtMost(p: Policy, b: Option<Bucket>, c: Call)
    requires p.Valid() && InRange(p, b) && c.requested == 1
    ensures Step(p, b, c).1.retryAfterMs <= MaxInt(0, LongestWait(p))
  {
    StepInRange(p, b, c);
    var level := Level(p, b, c.now);
    hide Level;
    ShorterWait(p, 1.0 - level);
    CeilMonotone((1.0 - level) / p.rate * 1000.0, 1.0 / p.rate * 1000.0);
  }

  lemma ShorterWait(p: Policy, missing: real)
    requires p.Valid() && missing <= 1.0
    ensures missing / p.rate * 1000.0 <= 1.0 / p.rate * 1000.0
  {
    assert missing / p.rate * p.rate == missing && 1.0 / p.rate * p.rate == 1.0;
    Cancel(missing / p.rate, 1.0 / p.rate, p.rate);
  }

  lemma CeilMonotone(x: real, y: real)
    requires x <= y
    ensures Ceil(x) <= Ceil(y)
  {
  }

  /** Where the lifetime of keys fits in 64 bits, so does every wait. */
  lemma WaitFits(p: Policy, b: Option<Bucket>, c: Call)
    requires p.Valid() && Fits(p) && InRange(p, b) && c.requested == 1
    ensures Step(p, b, c).1.retryAfterMs * 1_000_000 <= MAX_INT64
  {
    WaitsAtMost(p, b, c);
    TokenFillsInTime(p, 1.0);
    hide FillNanos, Step;
    var wait := 1.0 / p.rate;
    assert Ceil(wait * 1000.0) as real < wait * 1000.0 + 1.0;
  }

  /** Waiting the announced seconds after a limited decision is enough, and at most one
      second more than the bucket's own exact retry time, unless that time overflows 64
      bits; then it is too short. */
  lemma {:induction false} AnnouncedSecondsSuffice(p: Policy, b: Option<Bucket>, c: Call, between: seq<Call>,
                                                   again: Call, key: string)
    requires p.Valid() && key != "" && c.requested == 1 == again.requested
    requires Nondecreasing([c] + between + [again])
    requires !Step(p, b, c).1.allowed
    requires forall r :: r in Run(p, Step(p, b, c).0, between) ==> !r.allowed
    ensures var reply := Step(p, b, c).1;
      var d := DecisionOn(p, key, reply);
      var allowedAgain := Step(p, After(p, b, [c] + between), again).1.allowed;
      if reply.retryAfterMs * 1_000_000 <= MAX_INT64 then
        && d.retryAfter == reply.retryAfterMs * 1_000_000
        && 0 < d.retryAfterSeconds * SECOND_NS - d.retryAfter <= SECOND_NS
        && (again.now - c.now >= d.retryAfterSeconds * 1000 ==> allowedAgain)
      else
        again.now - c.now == d.retryAfterSeconds * 1000 ==> !allowedAgain
  {
    hide Step, Run, After, Nondecreasing;
    RetryAfterIsExact(p, b, c, between, again);
  }

  /** From an instant on, after every denial of a bucket in range, one who waits the
      announced seconds while nobody else is admitted is admitted. */
  ghost predicate AnnouncementsHold(p: Policy, key: string, start: int)
    requires p.Valid() && key != ""
  {
    forall b: Option<Bucket>, c: Call, between: seq<Call>, again: Call ::
      start <= c.now && DeniedAndWaited(p, key, b, c, between, again) ==>
        Step(p, After(p, b, [c] + between), again).1.allowed
  }

  predicate DeniedAndWaited(p: Policy, key: string, b: Option<Bucket>, c: Call, between: seq<Call>, again: Call)
    requires p.Valid() && key != ""
  {
    && InRange(p, b) && c.requested == 1 == again.requested && Nondecreasing([c] + between + [again])
    && !Step(p, b, c).1.allowed && (forall r :: r in Run(p, Step(p, b, c).0, between) ==> !r.allowed)
    && again.now - c.now >= DecisionOn(p, key, Step(p, b, c).1).retryAfterSeconds * 1000
  }

  /** The announced seconds are always enough exactly when the wait for a whole token is
      a 64-bit number of nanoseconds. */
  lemma AnnouncementsHoldIff(p: Policy, key: string, start: int)
    requires p.Valid() && key != ""
    ensures AnnouncementsHold(p, key, start) <==> LongestWait(p) * 1_000_000 <= MAX_INT64
  {
    if LongestWait(p) * 1_000_000 <= MAX_INT64 {
      forall b: Option<Bucket>, c: Call, between: seq<Call>, again: Call
        | DeniedAndWaited(p, key, b, c, between, again)
        ensures Step(p, After(p, b, [c] + between), again).1.allowed
      {
        hide Step, LongestWait, DecisionOn, Nondecreasing;
        WaitsAtMost(p, b, c);
        AnnouncedSecondsSuffice(p, b, c, between, again, key);
      }
    } else {
      LongWaitMisleads(p, key, start);
    }
  }

  lemma LongWaitMisleads(p: Policy, key: string, start: int)
    requires p.Valid() && key != "" && LongestWait(p) * 1_000_000 > MAX_INT64
    ensures !AnnouncementsHold(p, key, start)
  {
    var b, c := Some(Bucket(0.0, start)), Call(start, 1);
    EmptyDenies(p, start);
    hide Step, LongestWait;
    var seconds := DecisionOn(p, key, Step(p, b, c).1).retryAfterSeconds;
    var again := Call(start + seconds * 1000, 1);
    assert [c] + [] + [again] == [c, again];
    assert Run(p, Step(p, b, c).0, []) == [];
    AnnouncedSecondsSuffice(p, b, c, [], again, key);
    assert DeniedAndWaited(p, key, b, c, [], again);
  }

  lemma EmptyDenies(p: Policy, now: int)
    requires p.Valid()
    ensures Step(p, Some(Bucket(0.0, now)), Call(now, 1)).1 == Reply(false, LongestWait(p))
  {
    assert Seconds(now, now) * p.rate == 0.0;
  }
}
