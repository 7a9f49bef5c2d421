/** The token bucket kept by the Lua script of the Redis backend, as a bucket that
    never expires, and what every run of calls on it satisfies. Time is in
    milliseconds, tokens are reals. */
module TokenBucket {
  import opened Wrappers
  import opened RateMath

  datatype Bucket = Bucket(tokens: real, ts: int)

  datatype Call = Call(now: int, requested: int)

  datatype Reply = Reply(allowed: bool, retryAfterMs: int)

  // ----- one call

  /** Seconds between two millisecond readings, 0 when the clock went back. */
  function Seconds(since: int, now: int): real {
    MaxInt(0, now - since) as real / 1000.0
  }

  /** Tokens on hand when a call arrives; a missing bucket is a full one. */
  function Level(p: Policy, b: Option<Bucket>, now: int): real {
    match b
    case None => p.burst as real
    case Some(k) => Refill(p, k.tokens, Seconds(k.ts, now))
  }

  predicate Rejected(p: Policy, requested: int) {
    p.rate <= 0.0 || p.burst <= 0 || requested <= 0
  }

  function Step(p: Policy, b: Option<Bucket>, c: Call): (Option<Bucket>, Reply) {
    if Rejected(p, c.requested) then (b, Reply(false, 1000))
    else
      var level := Level(p, b, c.now);
      if level >= c.requested as real then
        (Some(Bucket(level - c.requested as real, c.now)), Reply(true, 0))
      else
        (Some(Bucket(level, c.now)), Reply(false, Ceil((c.requested as real - level) / p.rate * 1000.0)))
  }

  // ----- runs

  function Run(p: Policy, b: Option<Bucket>, calls: seq<Call>): (replies: seq<Reply>)
    ensures |replies| == |calls|
    decreases |calls|
  {
    if calls == [] then []
    else
      var (b', reply) := Step(p, b, calls[0]);
      [reply] + Run(p, b', calls[1..])
  }

  function After(p: Policy, b: Option<Bucket>, calls: seq<Call>): Option<Bucket>
    decreases |calls|
  {
    if calls == [] then b else After(p, Step(p, b, calls[0]).0, calls[1..])
  }

  predicate Nondecreasing(calls: seq<Call>) {
    forall i, j :: 0 <= i < j < |calls| ==> calls[i].now <= calls[j].now
  }

  predicate WrittenBefore(b: Option<Bucket>, calls: seq<Call>) {
    b.Some? ==> forall i :: 0 <= i < |calls| ==> b.value.ts <= calls[i].now
  }

  predicate InRange(p: Policy, b: Option<Bucket>) {
    b.Some? ==> 0.0 <= b.value.tokens <= p.burst as real
  }

  lemma {:induction false} RunSplits(p: Policy, b: Option<Bucket>, xs: seq<Call>, ys: seq<Call>)
    ensures Run(p, b, xs + ys) == Run(p, b, xs) + Run(p, After(p, b, xs), ys)
    ensures After(p, b, xs + ys) == After(p, After(p, b, xs), ys)
    decreases |xs|
  {
    if xs == [] {
      assert xs + ys == ys;
    } else {
      assert (xs + ys)[1..] == xs[1..] + ys;
      RunSplits(p, Step(p, b, xs[0]).0, xs[1..], ys);
    }
  }

  lemma StepInRange(p: Policy, b: Option<Bucket>, c: Call)
    requires p.Valid() && InRange(p, b)
    ensures 0.0 <= Level(p, b, c.now) <= p.burst as real
    ensures InRange(p, Step(p, b, c).0)
  {
    if b.Some? {
      RefillBounds(p, b.value.tokens, Seconds(b.value.ts, c.now));
    }
  }

  /** The stored token count never leaves [0, burst], whatever the clock does. */
  lemma {:induction false} TokensStayInRange(p: Policy, b: Option<Bucket>, calls: seq<Call>)
    requires p.Valid() && InRange(p, b)
    ensures InRange(p, After(p, b, calls))
    decreases |calls|
  {
    if calls != [] {
      StepInRange(p, b, calls[0]);
      TokensStayInRange(p, Step(p, b, calls[0]).0, calls[1..]);
    }
  }

  /** A call that asks for nothing, or on a policy that allows nothing, is denied for a second
      and leaves the bucket alone. Any other is stamped; it is allowed exactly when the tokens
      are there, with no wait, and takes them, and otherwise denied for some time. */
  lemma StepReplies(p: Policy, b: Option<Bucket>, c: Call)
    ensures var (b', r) := Step(p, b, c);
      if p.rate <= 0.0 || p.burst <= 0 || c.requested <= 0 then b' == b && r == Reply(false, 1000)
      else
        && b'.Some? && b'.value.ts == c.now
        && (r.allowed <==> Level(p, b, c.now) >= c.requested as real)
        && b'.value.tokens == Level(p, b, c.now) - (if r.allowed then c.requested else 0) as real
        && (r.allowed ==> r.retryAfterMs == 0) && (!r.allowed ==> r.retryAfterMs >= 1)
  {
    if p.Valid() && c.requested > 0 {
      WaitedEnough(p, c.requested as real - Level(p, b, c.now), 0);
    }
  }

  /** A key without a bucket has a full one; a stored one gains the rate times the time that
      has passed, up to the burst, and nothing when the clock has gone back. */
  lemma LevelIsRefilled(p: Policy, b: Bucket, now: int)
    requires p.Valid() && b.tokens <= p.burst as real
    ensures Level(p, None, now) == p.burst as real
    ensures now <= b.ts ==> Level(p, Some(b), now) == b.tokens
    ensures var full := b.tokens + (now - b.ts) as real * p.rate / 1000.0;
      now > b.ts ==> Level(p, Some(b), now) == if full <= p.burst as real then full else p.burst as real
  {
    assert now <= b.ts ==> Seconds(b.ts, now) * p.rate == 0.0;
    assert now > b.ts ==> Seconds(b.ts, now) * p.rate == (now - b.ts) as real * p.rate / 1000.0;
  }

  // ----- denied calls cost nothing

  /** e stands for b from b's timestamp on: e was left alone while b was only refilled. */
  predicate Refreshed(p: Policy, e: Option<Bucket>, b: Option<Bucket>) {
    || e == b
    || (b.Some? && e.None? && b.value.tokens == p.burst as real)
    || (b.Some? && e.Some? && e.value.ts <= b.value.ts
        && b.value.tokens == Refill(p, e.value.tokens, Seconds(e.value.ts, b.value.ts)))
  }

  lemma RefreshedLevel(p: Policy, e: Option<Bucket>, b: Option<Bucket>, now: int)
    requires p.Valid() && Refreshed(p, e, b) && (b.Some? ==> b.value.ts <= now)
    ensures Level(p, e, now) == Level(p, b, now)
  {
    if e != b {
      assert Seconds(b.value.ts, now) * p.rate >= 0.0;
      if e.Some? {
        RefillComposes(p, e.value.tokens, Seconds(e.value.ts, b.value.ts), Seconds(b.value.ts, now));
        assert Seconds(e.value.ts, now) == Seconds(e.value.ts, b.value.ts) + Seconds(b.value.ts, now);
      }
    }
  }

  lemma DeniedStepRefreshes(p: Policy, e: Option<Bucket>, b: Option<Bucket>, c: Call)
    requires p.Valid() && Refreshed(p, e, b) && (b.Some? ==> b.value.ts <= c.now)
    requires !Step(p, b, c).1.allowed
    ensures Refreshed(p, e, Step(p, b, c).0)
  {
    RefreshedLevel(p, e, b, c.now);
  }

  lemma {:induction false} DeniedRunRefreshes(p: Policy, e: Option<Bucket>, b: Option<Bucket>,
                                              calls: seq<Call>)
    requires p.Valid() && Refreshed(p, e, b) && WrittenBefore(b, calls) && Nondecreasing(calls)
    requires forall r :: r in Run(p, b, calls) ==> !r.allowed
    ensures Refreshed(p, e, After(p, b, calls))
    decreases |calls|
  {
    if calls != [] {
      assert Run(p, b, calls)[0] in Run(p, b, calls);
      DeniedStepRefreshes(p, e, b, calls[0]);
      var b' := Step(p, b, calls[0]).0;
      assert Run(p, b, calls) == [Step(p, b, calls[0]).1] + Run(p, b', calls[1..]);
      DeniedRunRefreshes(p, e, b', calls[1..]);
    }
  }

  function Keep<T>(xs: seq<T>, keep: seq<bool>): (ys: seq<T>)
    requires |xs| == |keep|
  {
    if xs == [] then []
    else (if keep[0] then [xs[0]] else []) + Keep(xs[1..], keep[1..])
  }

  /** Erasing any set of denied calls from a run leaves every other reply, its
      decision and its retry time, as it was. */
  lemma DeniedCallsCostNothing(p: Policy, b: Option<Bucket>, calls: seq<Call>, keep: seq<bool>)
    requires |keep| == |calls| && WrittenBefore(b, calls) && Nondecreasing(calls)
    requires forall i :: 0 <= i < |calls| && !keep[i] ==> !Run(p, b, calls)[i].allowed
    ensures Run(p, b, Keep(calls, keep)) == Keep(Run(p, b, calls), keep)
  {
    if p.Valid() {
      ErasingFrom(p, b, b, calls, keep);
    } else {
      ErasingRejected(p, b, calls, keep);
    }
  }

  lemma RefreshedStep(p: Policy, e: Option<Bucket>, b: Option<Bucket>, c: Call)
    requires p.Valid() && Refreshed(p, e, b) && (b.Some? ==> b.value.ts <= c.now)
    ensures Step(p, e, c).1 == Step(p, b, c).1 && Refreshed(p, Step(p, e, c).0, Step(p, b, c).0)
  {
    hide Level;
    RefreshedLevel(p, e, b, c.now);
  }

  lemma WrittenBeforeRest(p: Policy, b: Option<Bucket>, calls: seq<Call>)
    requires calls != [] && WrittenBefore(b, calls) && Nondecreasing(calls)
    ensures b.Some? ==> b.value.ts <= calls[0].now
    ensures WrittenBefore(Step(p, b, calls[0]).0, calls[1..]) && Nondecreasing(calls[1..])
  {
  }

  lemma {:induction false} ErasingFrom(p: Policy, e: Option<Bucket>, b: Option<Bucket>,
                                       calls: seq<Call>, keep: seq<bool>)
    requires p.Valid() && Refreshed(p, e, b)
    requires |keep| == |calls| && WrittenBefore(b, calls) && Nondecreasing(calls)
    requires forall i :: 0 <= i < |calls| && !keep[i] ==> !Run(p, b, calls)[i].allowed
    ensures Run(p, e, Keep(calls, keep)) == Keep(Run(p, b, calls), keep)
    decreases |calls|
  {
    if calls != [] {
      hide Refreshed, Step, WrittenBefore, Nondecreasing;
      var c, rest := calls[0], calls[1..];
      var (b', reply) := Step(p, b, c);
      assert Run(p, b, calls) == [reply] + Run(p, b', rest);
      forall i | 0 <= i < |rest| && !keep[1..][i] ensures !Run(p, b', rest)[i].allowed {
        assert !Run(p, b, calls)[i + 1].allowed;
      }
      WrittenBeforeRest(p, b, calls);
      if keep[0] {
        RefreshedStep(p, e, b, c);
        ErasingFrom(p, Step(p, e, c).0, b', rest, keep[1..]);
        assert Keep(calls, keep) == [c] + Keep(rest, keep[1..]);
      } else {
        DeniedStepRefreshes(p, e, b, c);
        ErasingFrom(p, e, b', rest, keep[1..]);
        assert Keep(calls, keep) == Keep(rest, keep[1..]);
      }
    }
  }

  lemma {:induction false} ErasingRejected(p: Policy, b: Option<Bucket>, calls: seq<Call>, keep: seq<bool>)
    requires !p.Valid() && |keep| == |calls|
    ensures Run(p, b, Keep(calls, keep)) == Keep(Run(p, b, calls), keep)
  {
    if calls != [] {
      ErasingRejected(p, b, calls[1..], keep[1..]);
      if keep[0] {
        assert Keep(calls, keep) == [calls[0]] + Keep(calls[1..], keep[1..]);
      } else {
        assert Keep(calls, keep) == Keep(calls[1..], keep[1..]);
      }
    }
  }

  // ----- admission bound

  /** Tokens handed out by the allowed calls of a run. */
  function Granted(calls: seq<Call>, replies: seq<Reply>): int
    requires |calls| == |replies|
  {
    if calls == [] then 0
    else (if replies[0].allowed then calls[0].requested else 0) + Granted(calls[1..], replies[1..])
  }

  /** Sum of the positive clock advances between successive calls. */
  function Advance(calls: seq<Call>): (ms: int)
    ensures ms >= 0
  {
    if |calls| <= 1 then 0 else MaxInt(0, calls[1].now - calls[0].now) + Advance(calls[1..])
  }

  lemma LevelGrowth(p: Policy, b: Option<Bucket>, s: int, t: int)
    requires p.Valid()
    ensures Level(p, b, t) <= Level(p, b, s) + Seconds(s, t) * p.rate
  {
    assert Seconds(s, t) * p.rate >= 0.0;
    if b.Some? {
      var k := b.value;
      assert Seconds(k.ts, t) <= Seconds(k.ts, s) + Seconds(s, t);
      assert Seconds(k.ts, t) * p.rate <= (Seconds(k.ts, s) + Seconds(s, t)) * p.rate;
      assert (Seconds(k.ts, s) + Seconds(s, t)) * p.rate == Seconds(k.ts, s) * p.rate + Seconds(s, t) * p.rate;
    }
  }

  lemma StepSpends(p: Policy, b: Option<Bucket>, c: Call)
    requires p.Valid()
    ensures var (b', r) := Step(p, b, c);
      Level(p, b', c.now) + (if r.allowed then c.requested else 0) as real <= Level(p, b, c.now)
  {
  }

  lemma GainsAdd(p: Policy, s: int, t: int)
    ensures (s + t) as real / 1000.0 * p.rate == s as real / 1000.0 * p.rate + t as real / 1000.0 * p.rate
  {
    var x, y := s as real / 1000.0, t as real / 1000.0;
    assert (s + t) as real / 1000.0 == x + y;
    assert (x + y) * p.rate == x * p.rate + y * p.rate;
  }

  lemma GrantedUnfolds(p: Policy, b: Option<Bucket>, calls: seq<Call>)
    requires calls != []
    ensures var (b', r) := Step(p, b, calls[0]);
      Granted(calls, Run(p, b, calls))
      == (if r.allowed then calls[0].requested else 0) + Granted(calls[1..], Run(p, b', calls[1..]))
  {
    assert Run(p, b, calls)[1..] == Run(p, Step(p, b, calls[0]).0, calls[1..]);
  }

  /** granted tokens fit in what was on hand plus ms milliseconds of refill. */
  predicate Within(p: Policy, granted: int, onHand: real, ms: int) {
    granted as real <= onHand + ms as real / 1000.0 * p.rate
  }

  lemma WithinExtends(p: Policy, b: Option<Bucket>, b': Option<Bucket>, c: Call, n: int, g: int, more: int, ms: int)
    requires p.Valid() && ms >= 0
    requires Level(p, b', c.now) + g as real <= Level(p, b, c.now)
    requires Within(p, more, Level(p, b', n), ms)
    ensures Within(p, g + more, Level(p, b, c.now), MaxInt(0, n - c.now) + ms)
  {
    var l0, l1, l2 := Level(p, b, c.now), Level(p, b', c.now), Level(p, b', n);
    var x, y := Seconds(c.now, n) * p.rate, ms as real / 1000.0 * p.rate;
    assert l2 <= l1 + x by {
      LevelGrowth(p, b', c.now, n);
    }
    assert (MaxInt(0, n - c.now) + ms) as real / 1000.0 * p.rate == x + y by {
      GainsAdd(p, MaxInt(0, n - c.now), ms);
    }
  }

  lemma GrantedOnce(p: Policy, b: Option<Bucket>, c: Call)
    requires p.Valid() && InRange(p, b)
    ensures Within(p, if Step(p, b, c).1.allowed then c.requested else 0, Level(p, b, c.now), 0)
  {
    StepSpends(p, b, c);
    StepInRange(p, b, c);
    StepInRange(p, Step(p, b, c).0, c);
  }

  lemma {:induction false} GrantedFrom(p: Policy, b: Option<Bucket>, calls: seq<Call>)
    requires p.Valid() && InRange(p, b) && calls != []
    ensures Within(p, Granted(calls, Run(p, b, calls)), Level(p, b, calls[0].now), Advance(calls))
    decreases |calls|
  {
    var c, rest := calls[0], calls[1..];
    var (b', r) := Step(p, b, c);
    var g := if r.allowed then c.requested else 0;
    GrantedUnfolds(p, b, calls);
    if rest == [] {
      GrantedOnce(p, b, c);
    } else {
      StepSpends(p, b, c);
      StepInRange(p, b, c);
      GrantedFrom(p, b', rest);
      WithinExtends(p, b, b', c, rest[0].now, g, Granted(rest, Run(p, b', rest)), Advance(rest));
    }
  }

  lemma WithinWeakens(p: Policy, granted: int, x: real, y: real, ms: int)
    requires Within(p, granted, x, ms) && x <= y
    ensures Within(p, granted, y, ms)
  {
  }

  /** Over every run, whatever the clock does, the tokens granted are at most the
      burst plus the rate times the positive clock advances. */
  lemma AdmissionBound(p: Policy, b: Option<Bucket>, calls: seq<Call>)
    requires p.Valid() && InRange(p, b)
    ensures Within(p, Granted(calls, Run(p, b, calls)), p.burst as real, Advance(calls))
  {
    if calls != [] {
      hide *;
      GrantedFrom(p, b, calls);
      StepInRange(p, b, calls[0]);
      WithinWeakens(p, Granted(calls, Run(p, b, calls)), Level(p, b, calls[0].now), p.burst as real, Advance(calls));
    }
  }

  lemma {:induction false} AdvanceTelescopes(calls: seq<Call>)
    requires calls != [] && Nondecreasing(calls)
    ensures Advance(calls) == calls[|calls| - 1].now - calls[0].now
  {
    if |calls| > 1 {
      AdvanceTelescopes(calls[1..]);
    }
  }

  lemma RunOfWindow(p: Policy, b: Option<Bucket>, calls: seq<Call>, i: nat, j: nat)
    requires i <= j <= |calls|
    ensures Run(p, b, calls)[i..j] == Run(p, After(p, b, calls[..i]), calls[i..j])
  {
    var before, window, after := calls[..i], calls[i..j], calls[j..];
    assert calls == before + (window + after);
    RunSplits(p, b, before, window + after);
    RunSplits(p, After(p, b, before), window, after);
  }

  lemma WindowNondecreasing(calls: seq<Call>, i: nat, j: nat)
    requires i <= j <= |calls| && Nondecreasing(calls)
    ensures Nondecreasing(calls[i..j])
  {
  }

  /** When readings never go back, any window calls[i..j] of a run grants at most
      the burst plus the rate times the length of the window. */
  lemma WindowBound(p: Policy, b: Option<Bucket>, calls: seq<Call>, i: nat, j: nat)
    requires p.Valid() && InRange(p, b) && i < j <= |calls|
    requires Nondecreasing(calls)
    ensures Within(p, Granted(calls[i..j], Run(p, b, calls)[i..j]), p.burst as real, calls[j - 1].now - calls[i].now)
  {
    hide *;
    assert calls[i..j][0] == calls[i] && calls[i..j][j - i - 1] == calls[j - 1];
    WindowNondecreasing(calls, i, j);
    RunOfWindow(p, b, calls, i, j);
    TokensStayInRange(p, b, calls[..i]);
    AdmissionBound(p, After(p, b, calls[..i]), calls[i..j]);
    AdvanceTelescopes(calls[i..j]);
  }

  // ----- the window bound holds exactly when readings never go back

  predicate NeverBack(times: seq<int>) {
    forall i, j :: 0 <= i < j < |times| ==> times[i] <= times[j]
  }

  function Readings(calls: seq<Call>): (times: seq<int>)
    ensures |times| == |calls|
    ensures forall i :: 0 <= i < |times| ==> times[i] == calls[i].now
  {
    seq(|calls|, i requires 0 <= i < |calls| => calls[i].now)
  }

  /** The window calls[i..j] of a run from b grants no more than its length allows. */
  predicate WindowHolds(p: Policy, b: Option<Bucket>, calls: seq<Call>, i: nat, j: nat)
    requires i < j <= |calls|
  {
    Within(p, Granted(calls[i..j], Run(p, b, calls)[i..j]), p.burst as real, calls[j - 1].now - calls[i].now)
  }

  /** Every window of every run with these readings does, whatever the bucket and the requests. */
  ghost predicate AllWindowsHold(p: Policy, times: seq<int>) {
    forall b: Option<Bucket>, calls: seq<Call>, i: nat, j: nat ::
      InRange(p, b) && Readings(calls) == times && i < j <= |calls| ==> WindowHolds(p, b, calls, i, j)
  }

  /** A bucket that is full, stored or not. */
  predicate Full(p: Policy, b: Option<Bucket>) {
    b.Some? ==> b.value.tokens == p.burst as real
  }

  lemma FullLevel(p: Policy, b: Option<Bucket>, now: int)
    requires p.Valid() && Full(p, b)
    ensures Level(p, b, now) == p.burst as real
  {
    if b.Some? {
      assert Seconds(b.value.ts, now) * p.rate >= 0.0;
    }
  }

  /** Requests above the burst are denied and leave a full bucket full. */
  lemma {:induction false} StaysFull(p: Policy, b: Option<Bucket>, calls: seq<Call>)
    requires p.Valid() && Full(p, b) && forall i :: 0 <= i < |calls| ==> calls[i].requested > p.burst
    ensures Full(p, After(p, b, calls))
    decreases |calls|
  {
    if calls != [] {
      FullLevel(p, b, calls[0].now);
      StaysFull(p, Step(p, b, calls[0]).0, calls[1..]);
    }
  }

  /** The whole burst at position k, more than the burst everywhere else. */
  function OnlyAt(p: Policy, times: seq<int>, k: nat): (calls: seq<Call>)
    requires k < |times|
    ensures |calls| == |times|
    ensures forall i :: 0 <= i < |calls| ==> calls[i] == Call(times[i], if i == k then p.burst else p.burst + 1)
  {
    seq(|times|, i requires 0 <= i < |times| => Call(times[i], if i == k then p.burst else p.burst + 1))
  }

  lemma GrantsTheBurst(p: Policy, b: Option<Bucket>, c: Call, d: Call)
    requires p.Valid() && Full(p, b) && c.requested == p.burst && d.requested > p.burst
    ensures Granted([c, d], Run(p, b, [c, d])) == p.burst
  {
    FullLevel(p, b, c.now);
    hide Level, Refill, Ceil;
    var b' := Step(p, b, c).0;
    assert [c, d][1..] == [d] && [d][1..] == [];
    GrantedUnfolds(p, b, [c, d]);
    GrantedUnfolds(p, b', [d]);
    StepInRange(p, Some(Bucket(0.0, c.now)), d);
  }

  lemma NegativeGain(p: Policy, granted: int, ms: int)
    requires p.Valid() && granted >= p.burst && ms < 0
    ensures !Within(p, granted, p.burst as real, ms)
  {
    assert ms as real / 1000.0 * p.rate < 0.0;
  }

  lemma DropBreaksWindow(p: Policy, times: seq<int>, k: nat)
    requires p.Valid() && k + 1 < |times| && times[k] > times[k + 1]
    ensures !WindowHolds(p, None, OnlyAt(p, times, k), k, k + 2)
  {
    var calls := OnlyAt(p, times, k);
    RunOfWindow(p, None, calls, k, k + 2);
    StaysFull(p, None, calls[..k]);
    var m := After(p, None, calls[..k]);
    assert calls[k..k + 2] == [calls[k], calls[k + 1]];
    GrantsTheBurst(p, m, calls[k], calls[k + 1]);
    NegativeGain(p, p.burst, times[k + 1] - times[k]);
  }

  lemma {:induction false} FirstDrop(times: seq<int>) returns (k: nat)
    requires !NeverBack(times)
    ensures k + 1 < |times| && times[k] > times[k + 1]
    decreases |times|
  {
    if times[0] > times[1] {
      k := 0;
    } else {
      assert !NeverBack(times[1..]) by {
        var i, j :| 0 <= i < j < |times| && times[i] > times[j];
        if i > 0 {
          assert times[1..][i - 1] > times[1..][j - 1];
        } else {
          assert times[1..][0] > times[1..][j - 1];
        }
      }
      k := FirstDrop(times[1..]);
      k := k + 1;
    }
  }

  /** For every policy and every list of readings: the window bound holds for every
      window of every run with those readings exactly when they never go back. */
  lemma WindowBoundIffNeverBack(p: Policy, times: seq<int>)
    requires p.Valid()
    ensures AllWindowsHold(p, times) <==> NeverBack(times)
  {
    if NeverBack(times) {
      forall b: Option<Bucket>, calls: seq<Call>, i: nat, j: nat
        | InRange(p, b) && Readings(calls) == times && i < j <= |calls|
        ensures WindowHolds(p, b, calls, i, j)
      {
        assert forall k :: 0 <= k < |calls| ==> times[k] == calls[k].now;
        WindowBound(p, b, calls, i, j);
      }
    } else {
      var k := FirstDrop(times);
      DropBreaksWindow(p, times, k);
      assert Readings(OnlyAt(p, times, k)) == times;
    }
  }

  // ----- one token at a time, the window bound holds exactly when clocks do not disagree

  /** Calls for one token each, from an instant on, whose readings never fall more than
      skew milliseconds below an earlier one. */
  predicate SkewedBy(calls: seq<Call>, skew: nat, start: int) {
    && (forall i :: 0 <= i < |calls| ==> calls[i].requested == 1 && start <= calls[i].now)
    && (forall i, j :: 0 <= i < j < |calls| ==> calls[i].now - skew <= calls[j].now)
  }

  ghost predicate SkewIsHarmless(p: Policy, b: Option<Bucket>, skew: nat, start: int) {
    forall calls: seq<Call>, i: nat, j: nat ::
      SkewedBy(calls, skew, start) && i < j <= |calls| ==> WindowHolds(p, b, calls, i, j)
  }

  /** A clock ahead by skew and one that is not take turns, n times. */
  function Swings(low: int, skew: nat, n: nat): (calls: seq<Call>)
    ensures |calls| == 2 * n
    ensures forall i :: 0 <= i < 2 * n ==> calls[i] == Call(if i % 2 == 0 then low + skew else low, 1)
  {
    seq(2 * n, i => Call(if i % 2 == 0 then low + skew else low, 1))
  }

  lemma SwingsSplit(low: int, skew: nat, m: nat, n: nat)
    ensures Swings(low, skew, m + n) == Swings(low, skew, m) + Swings(low, skew, n)
  {
  }

  lemma {:induction false} GrantedIsNatural(calls: seq<Call>, replies: seq<Reply>)
    requires |calls| == |replies| && forall i :: 0 <= i < |calls| ==> calls[i].requested == 1
    ensures Granted(calls, replies) >= 0
  {
    if calls != [] {
      GrantedIsNatural(calls[1..], replies[1..]);
    }
  }

  lemma {:induction false} GrantedSplits(p: Policy, b: Option<Bucket>, xs: seq<Call>, ys: seq<Call>)
    ensures Granted(xs + ys, Run(p, b, xs + ys))
         == Granted(xs, Run(p, b, xs)) + Granted(ys, Run(p, After(p, b, xs), ys))
    decreases |xs|
  {
    if xs == [] {
      assert xs + ys == ys;
    } else {
      hide Step;
      assert (xs + ys)[0] == xs[0] && (xs + ys)[1..] == xs[1..] + ys;
      GrantedUnfolds(p, b, xs + ys);
      GrantedUnfolds(p, b, xs);
      GrantedSplits(p, Step(p, b, xs[0]).0, xs[1..], ys);
    }
  }

  /** The refill of one rise of the readings. */
  function Rise(p: Policy, skew: nat): real {
    skew as real / 1000.0 * p.rate
  }

  /** So many rises make the tokens on hand a whole one. */
  predicate Enough(tokens: real, gain: real, rises: nat) {
    tokens + rises as real * gain >= 1.0
  }

  lemma OneRiseLess(tokens: real, gain: real, rises: nat)
    requires Enough(tokens, gain, rises) && tokens < 1.0
    ensures rises > 0 && Enough(tokens + gain, gain, rises - 1)
  {
    assert rises > 0 ==> rises as real * gain == gain + (rises - 1) as real * gain;
  }

  /** What one swing does: it grants a token, or it leaves the refill of one rise in the bucket. */
  lemma OneSwing(p: Policy, b: Option<Bucket>, low: int, skew: nat)
    requires p.Valid() && InRange(p, b)
    ensures var swing := Swings(low, skew, 1);
      var b' := After(p, b, swing);
      || Granted(swing, Run(p, b, swing)) >= 1
      || (&& b'.Some? && b'.value.ts == low && b'.value.tokens < 1.0
          && (b.Some? && b.value.ts == low ==> b'.value.tokens == b.value.tokens + Rise(p, skew))
          && InRange(p, b'))
  {
    var high, lower := Call(low + skew, 1), Call(low, 1);
    assert Swings(low, skew, 1) == [high, lower];
    TwoCalls(p, b, high, lower);
    GrantedIsNatural([lower], Run(p, Step(p, b, high).0, [lower]));
    StepInRange(p, b, high);
    StepInRange(p, Step(p, b, high).0, lower);
    assert Seconds(low + skew, low) * p.rate == 0.0;
  }

  lemma TwoCalls(p: Policy, b: Option<Bucket>, c: Call, d: Call)
    ensures var (b', r) := Step(p, b, c);
      var (b'', r') := Step(p, b', d);
      && After(p, b, [c, d]) == b''
      && Granted([c, d], Run(p, b, [c, d]))
         == (if r.allowed then c.requested else 0) + (if r'.allowed then d.requested else 0)
  {
    hide Step;
    assert [c, d][1..] == [d] && [d][1..] == [];
    var b' := Step(p, b, c).0;
    GrantedUnfolds(p, b, [c, d]);
    GrantedUnfolds(p, b', [d]);
    assert After(p, b', [d]) == After(p, Step(p, b', d).0, []);
  }

  /** From tokens left at the low reading, enough rises to make up a whole one grant it. */
  lemma {:induction false} Climbs(p: Policy, tokens: real, low: int, skew: nat, rises: nat)
    requires p.Valid() && 0.0 <= tokens < 1.0 && Enough(tokens, Rise(p, skew), rises)
    ensures var b, swings := Some(Bucket(tokens, low)), Swings(low, skew, rises);
      Granted(swings, Run(p, b, swings)) >= 1
    decreases rises
  {
    hide Step, Run, Granted, After, Rise, Enough;
    OneRiseLess(tokens, Rise(p, skew), rises);
    var b, swing, rest := Some(Bucket(tokens, low)), Swings(low, skew, 1), Swings(low, skew, rises - 1);
    SwingsSplit(low, skew, 1, rises - 1);
    GrantedSplits(p, b, swing, rest);
    GrantedIsNatural(swing, Run(p, b, swing));
    GrantedIsNatural(rest, Run(p, After(p, b, swing), rest));
    OneSwing(p, b, low, skew);
    if Granted(swing, Run(p, b, swing)) < 1 {
      Climbs(p, tokens + Rise(p, skew), low, skew, rises - 1);
    }
  }

  lemma EnoughRises(p: Policy, skew: nat) returns (rises: nat)
    requires p.Valid() && skew > 0
    ensures Enough(0.0, Rise(p, skew), rises)
  {
    var gain := Rise(p, skew);
    assert gain > 0.0;
    rises := Ceil(1.0 / gain);
    assert rises as real * gain >= 1.0 / gain * gain;
  }

  /** From any bucket, swinging long enough grants any number of tokens. */
  lemma {:induction false} Mints(p: Policy, b: Option<Bucket>, low: int, skew: nat, wanted: nat) returns (n: nat)
    requires p.Valid() && InRange(p, b) && skew > 0
    ensures wanted > 0 ==> n > 0
    ensures var swings := Swings(low, skew, n); Granted(swings, Run(p, b, swings)) >= wanted
    decreases wanted
  {
    n := 0;
    if wanted > 0 {
      var rises := EnoughRises(p, skew);
      MintsOne(p, b, low, skew, rises);
      var first := Swings(low, skew, 1 + rises);
      TokensStayInRange(p, b, first);
      n := Mints(p, After(p, b, first), low, skew, wanted - 1);
      SwingsSplit(low, skew, 1 + rises, n);
      GrantedSplits(p, b, first, Swings(low, skew, n));
      n := 1 + rises + n;
    }
  }

  lemma MintsOne(p: Policy, b: Option<Bucket>, low: int, skew: nat, rises: nat)
    requires p.Valid() && InRange(p, b) && Enough(0.0, Rise(p, skew), rises)
    ensures var swings := Swings(low, skew, 1 + rises); Granted(swings, Run(p, b, swings)) >= 1
  {
    var swing, rest := Swings(low, skew, 1), Swings(low, skew, rises);
    hide Step, Run, Granted, After, Rise;
    SwingsSplit(low, skew, 1, rises);
    GrantedSplits(p, b, swing, rest);
    GrantedIsNatural(swing, Run(p, b, swing));
    GrantedIsNatural(rest, Run(p, After(p, b, swing), rest));
    OneSwing(p, b, low, skew);
    if Granted(swing, Run(p, b, swing)) < 1 {
      Climbs(p, After(p, b, swing).value.tokens, low, skew, rises);
    }
  }

  lemma SkewBreaksWindow(p: Policy, b: Option<Bucket>, skew: nat, start: int)
    requires p.Valid() && InRange(p, b) && skew > 0
    ensures !SkewIsHarmless(p, b, skew, start)
  {
    hide Run, Granted, Within;
    var n := Mints(p, b, start, skew, p.burst);
    var calls := Swings(start, skew, n);
    assert calls[0..2 * n] == calls && Run(p, b, calls)[0..2 * n] == Run(p, b, calls);
    NegativeGain(p, Granted(calls, Run(p, b, calls)), 0 - skew);
    assert !WindowHolds(p, b, calls, 0, 2 * n);
  }

  /** For every policy, bucket and starting instant: if callers' clocks may disagree by so
      much, the window bound holds in every run of one-token calls exactly when they may
      not disagree at all. */
  lemma WindowBoundIffNoSkew(p: Policy, b: Option<Bucket>, skew: nat, start: int)
    requires p.Valid() && InRange(p, b)
    ensures SkewIsHarmless(p, b, skew, start) <==> skew == 0
  {
    if skew == 0 {
      forall calls: seq<Call>, i: nat, j: nat | SkewedBy(calls, skew, start) && i < j <= |calls|
        ensures WindowHolds(p, b, calls, i, j)
      {
        WindowBound(p, b, calls, i, j);
      }
    } else {
      SkewBreaksWindow(p, b, skew, start);
    }
  }

  // ----- retry-after

  lemma CeilIsLeast(x: real, n: int)
    ensures n as real >= x <==> n >= Ceil(x)
  {
  }

  lemma WaitedEnough(p: Policy, missing: real, ms: int)
    requires p.Valid()
    ensures ms as real / 1000.0 * p.rate >= missing <==> ms >= Ceil(missing / p.rate * 1000.0)
  {
    var x := missing / p.rate;
    assert x * p.rate == missing;
    var s := ms as real / 1000.0;
    assert s >= x ==> s * p.rate >= x * p.rate;
    assert s < x ==> s * p.rate < x * p.rate;
    CeilIsLeast(x * 1000.0, ms);
  }

  lemma RefillReaches(p: Policy, tokens: real, ms: nat, wanted: int)
    requires p.Valid()
    ensures Refill(p, tokens, ms as real / 1000.0) >= wanted as real
      <==> ms >= Ceil((wanted as real - tokens) / p.rate * 1000.0) && wanted <= p.burst
  {
    hide Ceil;
    WaitedEnough(p, wanted as real - tokens, ms);
  }

  /** A bucket m that only saw denied calls since e was written admits exactly
      when enough time has passed since then. */
  lemma AllowedAgain(p: Policy, e: Bucket, m: Option<Bucket>, again: Call)
    requires p.Valid() && again.requested > 0 && Refreshed(p, Some(e), m)
    requires e.ts <= again.now && (m.Some? ==> m.value.ts <= again.now)
    ensures Step(p, m, again).1.allowed
      <==> again.now - e.ts >= Ceil((again.requested as real - e.tokens) / p.rate * 1000.0)
           && again.requested <= p.burst
  {
    hide Refreshed, Refill, Ceil;
    RefreshedLevel(p, Some(e), m, again.now);
    RefillReaches(p, e.tokens, again.now - e.ts, again.requested);
  }

  lemma NondecreasingParts(c: Call, between: seq<Call>, again: Call)
    requires Nondecreasing([c] + between + [again])
    ensures c.now <= again.now && Nondecreasing(between)
    ensures forall i :: 0 <= i < |between| ==> c.now <= between[i].now <= again.now
  {
    var all := [c] + between + [again];
    assert all[0] == c && all[|all| - 1] == again;
    assert forall i :: 0 <= i < |between| ==> all[i + 1] == between[i];
  }

  /** After a denial with r ms, and with no admission in between, a call for as many
      tokens is allowed exactly when r ms have passed; a request above the burst
      is never allowed. */
  lemma RetryAfterIsExact(p: Policy, b: Option<Bucket>, c: Call, between: seq<Call>, again: Call)
    requires p.Valid() && c.requested > 0 && again.requested == c.requested
    requires Nondecreasing([c] + between + [again])
    requires !Step(p, b, c).1.allowed
    requires forall r :: r in Run(p, Step(p, b, c).0, between) ==> !r.allowed
    ensures var r := Step(p, b, c).1.retryAfterMs;
      && r >= 1
      && (Step(p, After(p, b, [c] + between), again).1.allowed
          <==> again.now - c.now >= r && c.requested <= p.burst)
  {
    var e := Step(p, b, c).0;
    NondecreasingParts(c, between, again);
    assert ([c] + between)[1..] == between;
    DeniedRunRefreshes(p, e, e, between);
    AfterTimestamp(p, e, between, again.now);
    AllowedAgain(p, e.value, After(p, e, between), again);
    WaitedEnough(p, c.requested as real - e.value.tokens, 0);
  }

  lemma {:induction false} AfterTimestamp(p: Policy, b: Option<Bucket>, calls: seq<Call>, bound: int)
    requires b.Some? ==> b.value.ts <= bound
    requires forall i :: 0 <= i < |calls| ==> calls[i].now <= bound
    ensures After(p, b, calls).Some? ==> After(p, b, calls).value.ts <= bound
    decreases |calls|
  {
    if calls != [] {
      AfterTimestamp(p, Step(p, b, calls[0]).0, calls[1..], bound);
    }
  }
}
