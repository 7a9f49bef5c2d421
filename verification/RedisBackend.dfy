/** The Redis side of the shared token bucket: a key-value store that drops expired
    keys, the script run on it, and the Go method that calls the script. */
module RedisBackend {
  import opened Wrappers
  import opened RateMath
  import opened TokenBucket

  /** The hash under one key, and the server time from which the key is gone. */
  datatype Entry = Entry(bucket: Bucket, deadline: int)

  type Store = map<string, Entry>

  function Visible(store: Store, key: string, at: int): Option<Bucket> {
    if key in store && at < store[key].deadline then Some(store[key].bucket) else None
  }

  /** The script: the ideal step on what the key shows, written back under a new deadline. */
  function ScriptStep(store: Store, key: string, at: int, p: Policy, c: Call, ttl: int): (Store, Reply) {
    var (b, reply) := Step(p, Visible(store, key, at), c);
    if Rejected(p, c.requested) then (store, reply)
    else (store[key := Entry(b.value, at + ttl)], reply)
  }

  const GRACE_MS := 5000

  /** The time an empty bucket takes to fill, in nanoseconds. */
  function FillNanos(p: Policy): (nanos: real)
    requires p.Valid()
    ensures nanos >= 0.0 && nanos * p.rate == 1_000_000_000.0 * p.burst as real
  {
    1_000_000_000.0 * p.burst as real / p.rate
  }

  /** The key's lifetime in nanoseconds, burst/rate plus five seconds, and at least five seconds. */
  function TtlNanos(p: Policy, wild: Int64): Int64
    requires p.Valid()
  {
    MaxInt(Wrap64(ToInt64(FillNanos(p), wild) + GRACE_MS * 1_000_000), GRACE_MS * 1_000_000)
  }

  function TtlMillis(p: Policy, wild: Int64): (ms: int)
    requires p.Valid()
    ensures ms >= GRACE_MS
  {
    TtlNanos(p, wild) / 1_000_000
  }

  /** The lifetime burst/rate plus five seconds is a 64-bit number of nanoseconds. */
  predicate Fits(p: Policy)
    requires p.Valid()
  {
    FillNanos(p).Floor + 5_000_000_000 <= MAX_INT64
  }

  // ----- the imperative form

  datatype Error = Unavailable | EmptyKey | NotPositive | Io | BadReply

  /** What the client library may hand over as a script's result. */
  datatype Value = Integer(n: int) | List(items: seq<Value>) | Other

  function Encoded(reply: Reply): Value {
    List([Integer(if reply.allowed then 1 else 0), Integer(reply.retryAfterMs)])
  }

  /** The decision in a result, with the retry time in nanoseconds. */
  function Decoded(v: Value): Result<(bool, Int64), Error> {
    match v
    case List(items) =>
      if |items| >= 2 && items[0].Integer? && items[1].Integer?
      then Ok((items[0].n == 1, Wrap64(items[1].n * 1_000_000))) else Err(BadReply)
    case _ => Err(BadReply)
  }

  class Backend {
    const hasClient: bool
    const keyFunc: Option<string -> string>
    /** What the platform converts floats beyond 64 bits to. */
    const wild: Int64
    var entries: Store

    constructor (hasClient: bool, keyFunc: Option<string -> string>, wild: Int64)
      ensures this.hasClient == hasClient && this.keyFunc == keyFunc && this.wild == wild && entries == map[]
    {
      this.hasClient := hasClient;
      this.keyFunc := keyFunc;
      this.wild := wild;
      entries := map[];
    }

    /** redisTokenBucketScript: at is the server's clock, now the caller's. */
    method Eval(key: string, at: int, now: int, p: Policy, requested: int, ttl: int)
      returns (allowed: int, retryAfterMs: int)
      modifies this
      ensures var (store, reply) := ScriptStep(old(entries), key, at, p, Call(now, requested), ttl);
        entries == store && allowed == (if reply.allowed then 1 else 0) && retryAfterMs == reply.retryAfterMs
    {
      if p.rate <= 0.0 || p.burst <= 0 || requested <= 0 {
        return 0, 1000;
      }
      var seen := Visible(entries, key, at);
      var tokens: real, ts: int;
      if seen.None? {
        tokens, ts := p.burst as real, now;
      } else {
        tokens, ts := seen.value.tokens, seen.value.ts;
      }
      var delta := MaxInt(0, now - ts) as real / 1000.0;
      tokens := Refill(p, tokens, delta);
      assert tokens == Level(p, seen, now);

      allowed, retryAfterMs := 0, 0;
      if tokens >= requested as real {
        tokens := tokens - requested as real;
        allowed := 1;
      } else {
        retryAfterMs := Ceil((requested as real - tokens) / p.rate * 1000.0);
      }
      entries := entries[key := Entry(Bucket(tokens, now), at + ttl)];
    }

    /** Allow: argument checks, the key's lifetime, one run of the script for one token;
        the retry time comes back in nanoseconds. handed is what the client library makes of
        the script's reply. A lost answer is an error although the bucket was charged. */
    method Allow(key: string, at: int, now: int, p: Policy, delivery: Delivery, handed: Value -> Value)
      returns (r: Result<(bool, Int64), Error>)
      modifies this
      ensures !hasClient ==> r == Err(Unavailable) && entries == old(entries)
      ensures hasClient && key == "" ==> r == Err(EmptyKey) && entries == old(entries)
      ensures hasClient && key != "" && !p.Valid() ==> r == Err(NotPositive) && entries == old(entries)
      ensures hasClient && key != "" && p.Valid() ==>
        var redisKey := if keyFunc.Some? then keyFunc.value(key) else key;
        var (store, reply) := ScriptStep(old(entries), redisKey, at, p, Call(now, 1), TtlMillis(p, wild));
        && entries == (if delivery.RequestLost? then old(entries) else store)
        && r == (if delivery.Delivered? then Decoded(handed(Encoded(reply))) else Err(Io))
    {
      if !hasClient {
        return Err(Unavailable);
      }
      if key == "" {
        return Err(EmptyKey);
      }
      if p.rate <= 0.0 || p.burst <= 0 {
        return Err(NotPositive);
      }
      var ttl := Wrap64(ToInt64(1_000_000_000.0 * p.burst as real / p.rate, wild) + GRACE_MS * 1_000_000);
      if ttl < GRACE_MS * 1_000_000 {
        ttl := GRACE_MS * 1_000_000;
      }
      var redisKey := key;
      if keyFunc.Some? {
        redisKey := keyFunc.value(key);
      }
      if delivery.RequestLost? {
        return Err(Io);
      }
      var allowed, retryAfterMs := Eval(redisKey, at, now, p, 1, ttl / 1_000_000);
      if delivery.ReplyLost? {
        return Err(Io);
      }
      var result := handed(List([Integer(allowed), Integer(retryAfterMs)]));
      if !result.List? || |result.items| < 2 {
        return Err(BadReply);
      }
      if !result.items[0].Integer? {
        return Err(BadReply);
      }
      if !result.items[1].Integer? {
        return Err(BadReply);
      }
      return Ok((result.items[0].n == 1, Wrap64(result.items[1].n * 1_000_000)));
    }
  }

  /** A reply handed over as the script gave it means what it said. */
  lemma DecodesEncoded(reply: Reply)
    ensures Decoded(Encoded(reply)) == Ok((reply.allowed, Wrap64(reply.retryAfterMs * 1_000_000)))
    ensures MIN_INT64 <= reply.retryAfterMs * 1_000_000 <= MAX_INT64 ==>
      Decoded(Encoded(reply)) == Ok((reply.allowed, reply.retryAfterMs * 1_000_000))
  {
  }

  /** Only a list that starts with two integers is taken for an answer. */
  lemma DecodesPairsOnly(v: Value)
    ensures Decoded(v) == Err(BadReply) <==> !exists a, b, more :: v == List([Integer(a), Integer(b)] + more)
    ensures Decoded(v).Err? ==> Decoded(v) == Err(BadReply)
  {
    if Decoded(v).Ok? {
      var a, b, more := v.items[0].n, v.items[1].n, v.items[2..];
      assert v == List([Integer(a), Integer(b)] + more);
    }
  }

  // ----- runs on the store

  /** One call of Allow that reached the server: its key, the server's clock, the caller's clock. */
  datatype Request = Request(key: string, at: int, now: int)

  /** The policy of every key, and the platform's conversion of floats out of range. */
  datatype Setup = Setup(policyOf: string -> Policy, wild: Int64) {
    ghost predicate Valid() {
      forall key :: policyOf(key).Valid()
    }
  }

  function RequestStep(u: Setup, store: Store, q: Request): (Store, Reply)
    requires u.policyOf(q.key).Valid()
  {
    ScriptStep(store, q.key, q.at, u.policyOf(q.key), Call(q.now, 1), TtlMillis(u.policyOf(q.key), u.wild))
  }

  /** The answers the requests for one key get in a run over all keys. */
  ghost function RepliesFor(u: Setup, store: Store, requests: seq<Request>, key: string): seq<Reply>
    requires u.Valid()
    decreases |requests|
  {
    if requests == [] then []
    else
      var (store', reply) := RequestStep(u, store, requests[0]);
      (if requests[0].key == key then [reply] else []) + RepliesFor(u, store', requests[1..], key)
  }

  function Only(requests: seq<Request>, key: string): seq<Request> {
    if requests == [] then []
    else (if requests[0].key == key then [requests[0]] else []) + Only(requests[1..], key)
  }

  function AsCalls(requests: seq<Request>): (calls: seq<Call>)
    ensures |calls| == |requests|
    ensures forall i :: 0 <= i < |calls| ==> calls[i] == Call(requests[i].now, 1)
  {
    seq(|requests|, i requires 0 <= i < |requests| => Call(requests[i].now, 1))
  }

  /** From one request for a key to the next, the callers' clocks do not go back, and
      they do not fall behind the server's clock by more than drift milliseconds. */
  predicate InStep(q: Request, r: Request, drift: int) {
    q.now <= r.now && (r.at - q.at) - (r.now - q.now) <= drift
  }

  predicate ClocksAgree(requests: seq<Request>, drift: int) {
    forall i {:trigger requests[i]} :: 0 <= i < |requests| - 1 ==> InStep(requests[i], requests[i + 1], drift)
  }

  /** An emptied bucket is full again a lifetime later by the server's clock, even if
      the callers' clocks have fallen behind by drift milliseconds. */
  predicate Tolerates(p: Policy, wild: Int64, drift: int)
    requires p.Valid()
  {
    p.burst as real * 1000.0 <= p.rate * (TtlMillis(p, wild) - drift) as real
  }

  lemma LifetimeCases(p: Policy, wild: Int64)
    requires p.Valid()
    ensures Fits(p) ==> TtlNanos(p, wild) == FillNanos(p).Floor + GRACE_MS * 1_000_000
    ensures !Fits(p) ==> TtlNanos(p, wild) < FillNanos(p).Floor
  {
  }

  lemma LongEnough(p: Policy, ms: int)
    requires p.Valid()
    ensures p.burst as real * 1000.0 <= p.rate * ms as real <==> ms as real * 1_000_000.0 >= FillNanos(p)
  {
    var x, full := ms as real * 1_000_000.0, FillNanos(p);
    assert x * p.rate == p.rate * ms as real * 1_000_000.0;
    assert x >= full ==> x * p.rate >= full * p.rate;
    assert x < full ==> x * p.rate < full * p.rate;
  }

  /** The five seconds of grace absorb any drift below them, unless the lifetime
      overflows, and then no drift is absorbed at all. */
  lemma ToleratesIffFits(p: Policy, wild: Int64, drift: int)
    requires p.Valid() && 0 <= drift < 5000
    ensures Tolerates(p, wild, drift) <==> Fits(p)
  {
    hide TtlNanos, Fits, FillNanos;
    LifetimeCases(p, wild);
    LongEnough(p, TtlMillis(p, wild) - drift);
  }

  lemma ToleratedIsFull(p: Policy, wild: Int64, drift: int, tokens: real, ms: int)
    requires p.Valid() && Tolerates(p, wild, drift) && tokens >= 0.0 && ms >= TtlMillis(p, wild) - drift
    ensures Refill(p, tokens, ms as real / 1000.0) == p.burst as real
  {
    hide TtlMillis;
    assert p.rate * ms as real >= p.rate * (TtlMillis(p, wild) - drift) as real;
    assert ms as real / 1000.0 * p.rate == p.rate * ms as real / 1000.0;
  }

  /** A bucket is full again once its whole lifetime, less the grace, has passed. */
  lemma LifetimeRefills(p: Policy, wild: Int64, tokens: real, ms: int)
    requires p.Valid() && Fits(p) && tokens >= 0.0 && ms > TtlMillis(p, wild) - 5000
    ensures Refill(p, tokens, ms as real / 1000.0) == p.burst as real
  {
    hide TtlMillis, Fits, Tolerates, Refill;
    ToleratesIffFits(p, wild, 4999);
    ToleratedIsFull(p, wild, 4999, tokens, ms);
  }

  /** What the store holds for a key after the request last, next to the ideal bucket. */
  ghost predicate Mirrors(p: Policy, wild: Int64, store: Store, last: Request, ideal: Option<Bucket>)
    requires p.Valid()
  {
    && last.key in store && ideal == Some(store[last.key].bucket)
    && InRange(p, ideal) && ideal.value.ts == last.now
    && store[last.key].deadline == last.at + TtlMillis(p, wild)
  }

  lemma ExpiredIsFull(p: Policy, wild: Int64, drift: int, store: Store, last: Request,
                      ideal: Option<Bucket>, q: Request)
    requires p.Valid() && Tolerates(p, wild, drift) && Mirrors(p, wild, store, last, ideal)
    requires last.key == q.key && InStep(last, q, drift)
    ensures Level(p, Visible(store, q.key, q.at), q.now) == Level(p, ideal, q.now)
  {
    if q.at >= store[q.key].deadline {
      ToleratedIsFull(p, wild, drift, ideal.value.tokens, q.now - last.now);
    }
  }

  lemma MirroredStep(p: Policy, wild: Int64, store: Store, ideal: Option<Bucket>, q: Request)
    requires p.Valid() && InRange(p, ideal)
    requires Level(p, Visible(store, q.key, q.at), q.now) == Level(p, ideal, q.now)
    ensures var (store', reply) := ScriptStep(store, q.key, q.at, p, Call(q.now, 1), TtlMillis(p, wild));
      var (ideal', reply') := Step(p, ideal, Call(q.now, 1));
      reply == reply' && Mirrors(p, wild, store', q, ideal')
  {
    hide Level, TtlMillis;
    StepInRange(p, ideal, Call(q.now, 1));
  }

  /** Where a drift is tolerated, expiry is invisible: in every run over all keys, the
      requests for one key get exactly the answers of a bucket of their own that never
      expires. */
  lemma {:induction false} ExpiryIsInvisible(u: Setup, drift: int, requests: seq<Request>, key: string)
    requires u.Valid() && Tolerates(u.policyOf(key), u.wild, drift) && ClocksAgree(Only(requests, key), drift)
    ensures RepliesFor(u, map[], requests, key) == Run(u.policyOf(key), None, AsCalls(Only(requests, key)))
  {
    FromUnused(u, drift, map[], requests, key);
  }

  lemma {:induction false} FromUnused(u: Setup, drift: int, store: Store, requests: seq<Request>, key: string)
    requires u.Valid() && Tolerates(u.policyOf(key), u.wild, drift)
    requires key !in store && ClocksAgree(Only(requests, key), drift)
    ensures RepliesFor(u, store, requests, key) == Run(u.policyOf(key), None, AsCalls(Only(requests, key)))
    decreases |requests|
  {
    if requests != [] {
      hide Level, Refill, Ceil, TtlMillis, Tolerates;
      var q, p := requests[0], u.policyOf(key);
      var store' := RequestStep(u, store, q).0;
      if q.key == key {
        MirroredStep(p, u.wild, store, None, q);
        assert Only(requests, key) == [q] + Only(requests[1..], key);
        assert AsCalls(Only(requests, key))[1..] == AsCalls(Only(requests[1..], key));
        FromMirror(u, drift, store', q, Step(p, None, Call(q.now, 1)).0, requests[1..]);
      } else {
        assert Only(requests, key) == Only(requests[1..], key);
        FromUnused(u, drift, store', requests[1..], key);
      }
    }
  }

  lemma {:induction false} FromMirror(u: Setup, drift: int, store: Store, last: Request, ideal: Option<Bucket>,
                                      requests: seq<Request>)
    requires u.Valid() && Tolerates(u.policyOf(last.key), u.wild, drift)
    requires Mirrors(u.policyOf(last.key), u.wild, store, last, ideal)
    requires ClocksAgree([last] + Only(requests, last.key), drift)
    ensures RepliesFor(u, store, requests, last.key)
         == Run(u.policyOf(last.key), ideal, AsCalls(Only(requests, last.key)))
    decreases |requests|
  {
    if requests != [] {
      hide Level, Refill, Ceil, TtlMillis, Tolerates;
      var q, key, p := requests[0], last.key, u.policyOf(last.key);
      var store' := RequestStep(u, store, q).0;
      if q.key == key {
        assert Only(requests, key) == [q] + Only(requests[1..], key);
        AgreeTail(last, [q] + Only(requests[1..], key), drift);
        ExpiredIsFull(p, u.wild, drift, store, last, ideal, q);
        MirroredStep(p, u.wild, store, ideal, q);
        assert AsCalls(Only(requests, key))[1..] == AsCalls(Only(requests[1..], key));
        FromMirror(u, drift, store', q, Step(p, ideal, Call(q.now, 1)).0, requests[1..]);
      } else {
        assert Only(requests, key) == Only(requests[1..], key);
        FromMirror(u, drift, store', last, ideal, requests[1..]);
      }
    }
  }

  lemma AgreeTail(last: Request, rest: seq<Request>, drift: int)
    requires rest != [] && ClocksAgree([last] + rest, drift)
    ensures InStep(last, rest[0], drift) && ClocksAgree(rest, drift)
  {
    var all := [last] + rest;
    assert InStep(all[0], all[1], drift);
    forall i | 0 <= i < |rest| - 1 ensures InStep(rest[i], rest[i + 1], drift) {
      assert InStep(all[i + 1], all[i + 2], drift);
    }
  }

  // ----- a drift that is not tolerated shows

  predicate NoEarlier(requests: seq<Request>, start: int) {
    forall i :: 0 <= i < |requests| ==> start <= requests[i].at && start <= requests[i].now
  }

  /** No run in which a key's clocks drift by at most this much tells the key's bucket
      from one that never expires. */
  ghost predicate Invisible(u: Setup, key: string, drift: int, start: int)
    requires u.Valid()
  {
    forall requests :: ClocksAgree(Only(requests, key), drift) && NoEarlier(requests, start)
      ==> RepliesFor(u, map[], requests, key) == Run(u.policyOf(key), None, AsCalls(Only(requests, key)))
  }

  /** n requests at once, and n more when the key has just expired, which by the
      callers' clocks is at later. */
  function Spends(key: string, n: nat, start: int, ttl: int, later: int): (requests: seq<Request>)
    ensures |requests| == 2 * n
    ensures forall i :: 0 <= i < 2 * n ==>
      requests[i] == (if i < n then Request(key, start, start) else Request(key, start + ttl, later))
  {
    seq(2 * n, i => if i < n then Request(key, start, start) else Request(key, start + ttl, later))
  }

  lemma TakesOne(u: Setup, store: Store, q: Request, k: nat)
    requires u.Valid() && k > 0
    requires Level(u.policyOf(q.key), Visible(store, q.key, q.at), q.now) == k as real
    ensures var p := u.policyOf(q.key);
      var (store', reply) := RequestStep(u, store, q);
      && reply == Reply(true, 0)
      && Level(p, Visible(store', q.key, q.at), q.now) == (k - 1) as real
      && Visible(store', q.key, q.at + TtlMillis(p, u.wild)) == None
  {
    var p := u.policyOf(q.key);
    hide TtlMillis;
    assert Seconds(q.now, q.now) * p.rate == 0.0;
    assert k <= p.burst;
  }

  /** As many requests as there are tokens on hand, all at once, are all admitted. */
  lemma {:induction false} DrainsAtOnce(u: Setup, store: Store, requests: seq<Request>, k: nat) returns (store': Store)
    requires u.Valid() && 0 < k <= |requests| && forall i :: 0 <= i < k ==> requests[i] == requests[0]
    requires var q := requests[0];
      Level(u.policyOf(q.key), Visible(store, q.key, q.at), q.now) == k as real
    ensures var q := requests[0];
      && Visible(store', q.key, q.at + TtlMillis(u.policyOf(q.key), u.wild)) == None
      && RepliesFor(u, store, requests, q.key)
         == AllAdmitted(k) + RepliesFor(u, store', requests[k..], q.key)
    decreases k
  {
    var q, p := requests[0], u.policyOf(requests[0].key);
    TakesOne(u, store, q, k);
    OneReply(u, store, requests);
    hide TtlMillis, RequestStep, Level, Visible, RepliesFor, AllAdmitted;
    store' := RequestStep(u, store, q).0;
    if k == 1 {
      OneMore(0);
    } else {
      store' := DrainsAtOnce(u, store', requests[1..], k - 1);
      assert requests[1..][k - 1..] == requests[k..];
      OneMore(k - 1);
      Assoc([Reply(true, 0)], AllAdmitted(k - 1), RepliesFor(u, store', requests[k..], q.key));
    }
  }

  function AllAdmitted(k: nat): seq<Reply> {
    seq(k, i => Reply(true, 0))
  }

  lemma OneMore(k: nat)
    ensures AllAdmitted(k + 1) == [Reply(true, 0)] + AllAdmitted(k)
    ensures AllAdmitted(0) == [] && [Reply(true, 0)] + [] == [Reply(true, 0)]
  {
  }

  lemma OneReply(u: Setup, store: Store, requests: seq<Request>)
    requires u.Valid() && requests != []
    ensures var (store', reply) := RequestStep(u, store, requests[0]);
      RepliesFor(u, store, requests, requests[0].key)
      == [reply] + RepliesFor(u, store', requests[1..], requests[0].key)
  {
  }

  lemma {:induction false} SameKey(requests: seq<Request>, key: string)
    requires forall i :: 0 <= i < |requests| ==> requests[i].key == key
    ensures Only(requests, key) == requests
  {
    if requests != [] {
      SameKey(requests[1..], key);
    }
  }

  lemma {:induction false} AllGranted(calls: seq<Call>, n: nat)
    requires |calls| == n && forall i :: 0 <= i < n ==> calls[i].requested == 1
    ensures |AllAdmitted(n)| == n && Granted(calls, AllAdmitted(n)) == n
    decreases n
  {
    if n > 0 {
      OneMore(n - 1);
      Cons(Reply(true, 0), AllAdmitted(n - 1));
      AllGranted(calls[1..], n - 1);
    }
  }

  /** The two bursts of Spends are both admitted, since the key expired in between. */
  lemma BothBursts(u: Setup, key: string, start: int, later: int)
    requires u.Valid()
    ensures var p := u.policyOf(key);
      RepliesFor(u, map[], Spends(key, p.burst, start, TtlMillis(p, u.wild), later), key)
      == AllAdmitted(2 * p.burst)
  {
    var p := u.policyOf(key);
    var n := p.burst;
    var requests := Spends(key, n, start, TtlMillis(p, u.wild), later);
    hide TtlMillis, RequestStep, AllAdmitted;
    var store := DrainsAtOnce(u, map[], requests, n);
    var store' := DrainsAtOnce(u, store, requests[n..], n);
    assert requests[n..][n..] == [];
    EmptySeq(AllAdmitted(n));
    AdmittedTwice(n);
  }

  lemma AdmittedTwice(n: nat)
    ensures AllAdmitted(2 * n) == AllAdmitted(n) + AllAdmitted(n)
  {
  }

  lemma TooSoon(p: Policy, wild: Int64, drift: int, wait: int)
    requires p.Valid() && !Tolerates(p, wild, drift)
    requires wait == var ttl := TtlMillis(p, wild); if ttl < drift then 0 else ttl - drift
    ensures !Within(p, 2 * p.burst, p.burst as real, wait)
  {
    assert wait as real / 1000.0 * p.rate == p.rate * wait as real / 1000.0;
  }

  /** The bucket that never expires cannot admit both. */
  lemma IdealDenies(p: Policy, key: string, start: int, ttl: int, wait: nat)
    requires p.Valid() && !Within(p, 2 * p.burst, p.burst as real, wait)
    ensures Run(p, None, AsCalls(Spends(key, p.burst, start, ttl, start + wait)))
         != AllAdmitted(2 * p.burst)
  {
    hide Within, Run, Advance, Granted, AllAdmitted, AsCalls, Nondecreasing;
    var calls := AsCalls(Spends(key, p.burst, start, ttl, start + wait));
    SpendsAdvance(key, p.burst, start, ttl, wait);
    AdmissionBound(p, None, calls);
    if Run(p, None, calls) == AllAdmitted(2 * p.burst) {
      AllGranted(calls, 2 * p.burst);
      assert false;
    }
  }

  lemma SpendsAdvance(key: string, n: nat, start: int, ttl: int, wait: nat)
    requires n > 0
    ensures Advance(AsCalls(Spends(key, n, start, ttl, start + wait))) == wait
  {
    hide Advance;
    AdvanceTelescopes(AsCalls(Spends(key, n, start, ttl, start + wait)));
  }

  lemma SpendsAgree(key: string, n: nat, start: int, ttl: int, wait: int, drift: nat)
    requires wait == (if ttl < drift then 0 else ttl - drift) && ttl >= 0
    ensures var requests := Spends(key, n, start, ttl, start + wait);
      Only(requests, key) == requests && ClocksAgree(requests, drift) && NoEarlier(requests, start)
  {
    SameKey(Spends(key, n, start, ttl, start + wait), key);
  }

  lemma ExpiredKeyOverspends(u: Setup, key: string, drift: int, start: int)
    requires u.Valid() && drift >= 0 && !Tolerates(u.policyOf(key), u.wild, drift)
    ensures !Invisible(u, key, drift, start)
  {
    hide *;
    ValidAt(u, key);
    var p := u.policyOf(key);
    var ttl := TtlMillis(p, u.wild);
    var wait := if ttl < drift then 0 else ttl - drift;
    var requests := Spends(key, p.burst, start, ttl, start + wait);
    SpendsAgree(key, p.burst, start, ttl, wait, drift);
    BothBursts(u, key, start, start + wait);
    TooSoon(p, u.wild, drift, wait);
    IdealDenies(p, key, start, ttl, wait);
    Shows(u, key, drift, start, requests);
  }

  lemma ValidAt(u: Setup, key: string)
    requires u.Valid()
    ensures u.policyOf(key).Valid() && u.policyOf(key).burst > 0 && TtlMillis(u.policyOf(key), u.wild) >= 0
  {
  }

  lemma Shows(u: Setup, key: string, drift: int, start: int, requests: seq<Request>)
    requires u.Valid() && ClocksAgree(Only(requests, key), drift) && NoEarlier(requests, start)
    requires RepliesFor(u, map[], requests, key) != Run(u.policyOf(key), None, AsCalls(Only(requests, key)))
    ensures !Invisible(u, key, drift, start)
  {
  }

  /** Expiry is invisible in every run, from any instant on, exactly where the drift is
      tolerated; for any drift below the grace that is where the lifetime fits 64 bits. */
  lemma InvisibleIffTolerated(u: Setup, key: string, drift: int, start: int)
    requires u.Valid() && drift >= 0
    ensures Invisible(u, key, drift, start) <==> Tolerates(u.policyOf(key), u.wild, drift)
    ensures drift < 5000 ==> (Invisible(u, key, drift, start) <==> Fits(u.policyOf(key)))
  {
    if drift < 5000 {
      ToleratesIffFits(u.policyOf(key), u.wild, drift);
    }
    if Tolerates(u.policyOf(key), u.wild, drift) {
      forall requests | ClocksAgree(Only(requests, key), drift)
        ensures RepliesFor(u, map[], requests, key) == Run(u.policyOf(key), None, AsCalls(Only(requests, key)))
      {
        ExpiryIsInvisible(u, drift, requests, key);
      }
    } else {
      ExpiredKeyOverspends(u, key, drift, start);
    }
  }
}
