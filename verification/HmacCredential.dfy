/** The HMAC credential validator and its in-memory nonce store. Instants and durations
    are nanoseconds; a credential's timestamp is in seconds. */
module HmacCredential {
  import opened Wrappers

  datatype CredentialType = Bearer | Hmac | ApiKey

  datatype Credential =
    Credential(kind: CredentialType, accessKey: string, signature: string, timestamp: int, nonce: string)

  datatype Accepted = Accepted(accessKey: string, subject: string, expiresAt: int)

  datatype Error = WrongType | Expired | FromFuture | CheckFailed | Replayed | UnknownKey | BadSignature

  /** The clock readings of one validation, in the order they are taken. */
  datatype Readings = Readings(expired: int, future: int, store: int, done: int) {
    predicate InOrder() {
      expired <= future <= store <= done
    }
  }

  /** How the nonce store serves one validation: whether its lookup or its write fails, and
      when the cleanup goroutine passes in between. */
  datatype Service = Service(checkFails: bool, storeFails: bool, passes: seq<int>)

  /** One validation: the credential, its readings, the secret the callback finds for
      the access key, the signature that secret gives, and the nonce store's part. */
  datatype Request = Request(cred: Credential, at: Readings, secret: Option<string>, expected: string, service: Service)
  {
    predicate InOrder() {
      && at.InOrder()
      && (forall i :: 0 <= i < |service.passes| ==> at.future <= service.passes[i] <= at.store)
      && (forall i, j :: 0 <= i < j < |service.passes| ==> service.passes[i] <= service.passes[j])
    }
  }

  type Nonces = map<string, int>

  /** How long after the credential's timestamp an instant is. */
  function Since(cred: Credential, now: int): int {
    now - cred.timestamp * SECOND_NS
  }

  /** The verdict on a request, given the nonces on record. */
  function Verdict(validity: int, hasStore: bool, nonces: Nonces, q: Request): Result<Accepted, Error> {
    var c := q.cred;
    if c.kind != Hmac then Err(WrongType)
    else if Since(c, q.at.expired) > validity then Err(Expired)
    else if Since(c, q.at.future) < -validity then Err(FromFuture)
    else if hasStore && c.nonce != "" && q.service.checkFails then Err(CheckFailed)
    else if hasStore && c.nonce != "" && c.nonce in nonces then Err(Replayed)
    else if q.secret.None? then Err(UnknownKey)
    else if c.signature != q.expected then Err(BadSignature)
    else Ok(Accepted(c.accessKey, c.accessKey, q.at.done + validity))
  }

  /** A cleanup pass drops every nonce whose expiry is strictly past. */
  function Cleaned(nonces: Nonces, now: int): Nonces {
    map n | n in nonces && now <= nonces[n] :: nonces[n]
  }

  function CleanedAll(nonces: Nonces, passes: seq<int>): Nonces
    decreases |passes|
  {
    if passes == [] then nonces else CleanedAll(Cleaned(nonces, passes[0]), passes[1..])
  }

  /** On record, and not strictly past at any of the passes. */
  predicate Survives(nonces: Nonces, passes: seq<int>, n: string) {
    n in nonces && forall i :: 0 <= i < |passes| ==> passes[i] <= nonces[n]
  }

  lemma {:induction false} CleaningDropsThePast(nonces: Nonces, passes: seq<int>)
    ensures forall n :: n in CleanedAll(nonces, passes) <==> Survives(nonces, passes, n)
    ensures forall n :: n in CleanedAll(nonces, passes) ==>
      n in nonces && CleanedAll(nonces, passes)[n] == nonces[n]
    decreases |passes|
  {
    if passes != [] {
      var left, rest := Cleaned(nonces, passes[0]), passes[1..];
      CleaningDropsThePast(left, rest);
      forall n ensures Survives(nonces, passes, n) <==> Survives(left, rest, n) {
        if Survives(left, rest, n) {
          forall i | 0 <= i < |passes| ensures passes[i] <= nonces[n] {
            assert i > 0 ==> passes[i] == rest[i - 1];
          }
        }
      }
    }
  }

  /** The validation has looked its nonce up and not found it. */
  predicate LooksUp(validity: int, hasStore: bool, nonces: Nonces, q: Request) {
    var r := Verdict(validity, hasStore, nonces, q);
    hasStore && q.cred.nonce != "" && (r.Ok? || r.error == UnknownKey || r.error == BadSignature)
  }

  /** An accepted nonce is put on record for a retention time, if the store manages to. */
  function Recorded(validity: int, retention: int, hasStore: bool, nonces: Nonces, q: Request): Nonces {
    if !LooksUp(validity, hasStore, nonces, q) then nonces
    else
      var left := CleanedAll(nonces, q.service.passes);
      if Verdict(validity, hasStore, nonces, q).Ok? && !q.service.storeFails
      then left[q.cred.nonce := q.at.store + retention] else left
  }

  // ----- the imperative form

  class NonceStore {
    var nonces: Nonces

    constructor ()
      ensures nonces == map[]
    {
      nonces := map[];
    }

    method Exists(nonce: string, fails: bool) returns (r: Option<bool>)
      ensures r == if fails then None else Some(nonce in nonces)
    {
      if fails {
        return None;
      }
      return Some(nonce in nonces);
    }

    method Store(nonce: string, now: int, ttl: int, fails: bool)
      modifies this
      ensures nonces == if fails then old(nonces) else old(nonces)[nonce := now + ttl]
    {
      if !fails {
        nonces := nonces[nonce := now + ttl];
      }
    }

    /** One tick of the cleanup goroutine. */
    method Cleanup(now: int)
      modifies this
      ensures nonces == Cleaned(old(nonces), now)
    {
      ghost var was := nonces;
      var todo := nonces.Keys;
      while todo != {}
        invariant todo <= nonces.Keys <= was.Keys
        invariant forall n :: n in nonces ==> nonces[n] == was[n] && (n in todo || now <= was[n])
        invariant forall n :: n in was && now <= was[n] ==> n in nonces
        decreases |todo|
      {
        var n :| n in todo;
        todo := todo - {n};
        if now > nonces[n] {
          nonces := nonces - {n};
        }
      }
    }
  }

  class Validator {
    const validity: int
    const nonceStore: NonceStore?

    constructor (validity: int, nonceStore: NonceStore?)
      ensures this.validity == validity && this.nonceStore == nonceStore
    {
      this.validity := validity;
      this.nonceStore := nonceStore;
    }

    ghost function Known(): Nonces
      reads nonceStore
    {
      if nonceStore == null then map[] else nonceStore.nonces
    }

    method Validate(q: Request) returns (r: Result<Accepted, Error>)
      modifies nonceStore
      ensures r == Verdict(validity, nonceStore != null, old(Known()), q)
      ensures Known() == Recorded(validity, 2 * validity, nonceStore != null, old(Known()), q)
      ensures r.Ok? <==>
        && q.cred.kind == Hmac
        && q.at.expired - q.cred.timestamp * SECOND_NS <= validity
        && q.at.future - q.cred.timestamp * SECOND_NS >= -validity
        && (nonceStore == null || q.cred.nonce == ""
            || (!q.service.checkFails && q.cred.nonce !in old(Known())))
        && q.secret.Some? && q.cred.signature == q.expected
      ensures r.Ok? ==> r.value == Accepted(q.cred.accessKey, q.cred.accessKey, q.at.done + validity)
      ensures r.Ok? && nonceStore != null && q.cred.nonce != "" && !q.service.storeFails ==>
        q.cred.nonce in Known() && Known()[q.cred.nonce] == q.at.store + 2 * validity
      ensures forall n :: n in Known() && (r.Err? || n != q.cred.nonce || q.service.storeFails) ==>
        n in old(Known()) && Known()[n] == old(Known())[n]
    {
      CleaningDropsThePast(old(Known()), q.service.passes);
      var cred := q.cred;
      if cred.kind != Hmac {
        return Err(WrongType);
      }
      if Since(cred, q.at.expired) > validity {
        return Err(Expired);
      }
      if Since(cred, q.at.future) < -validity {
        return Err(FromFuture);
      }
      if nonceStore != null && cred.nonce != "" {
        var used := nonceStore.Exists(cred.nonce, q.service.checkFails);
        if used.None? {
          return Err(CheckFailed);
        }
        if used.value {
          return Err(Replayed);
        }
        MeanwhileCleanup(q.service.passes);
      }
      if q.secret.None? {
        return Err(UnknownKey);
      }
      if cred.signature != q.expected {
        return Err(BadSignature);
      }
      if nonceStore != null && cred.nonce != "" {
        nonceStore.Store(cred.nonce, q.at.store, validity * 2, q.service.storeFails);
      }
      return Ok(Accepted(cred.accessKey, cred.accessKey, q.at.done + validity));
    }

    /** What the cleanup goroutine does while a validation goes on. */
    method MeanwhileCleanup(passes: seq<int>)
      requires nonceStore != null
      modifies nonceStore
      ensures nonceStore.nonces == CleanedAll(old(nonceStore.nonces), passes)
    {
      for i := 0 to |passes|
        invariant CleanedAll(nonceStore.nonces, passes[i..]) == CleanedAll(old(nonceStore.nonces), passes)
      {
        assert passes[i..][1..] == passes[i + 1..];
        nonceStore.Cleanup(passes[i]);
      }
    }
  }

  // ----- runs

  datatype Event = Validation(request: Request) | Cleanup(now: int) {
    function First(): int {
      if Validation? then request.at.expired else now
    }

    function Last(): int {
      if Validation? then request.at.done else now
    }
  }

  /** Time never goes back, within an event or from one to the next. */
  predicate InOrder(t: int, events: seq<Event>)
    decreases |events|
  {
    events == []
    || (t <= events[0].First() && (events[0].Validation? ==> events[0].request.InOrder())
        && InOrder(events[0].Last(), events[1..]))
  }

  function After(validity: int, retention: int, nonces: Nonces, event: Event): Nonces {
    match event
    case Validation(q) => Recorded(validity, retention, true, nonces, q)
    case Cleanup(now) => Cleaned(nonces, now)
  }

  /** The requests a run accepts, in order. */
  function Accepts(validity: int, retention: int, nonces: Nonces, events: seq<Event>): seq<Request>
    decreases |events|
  {
    if events == [] then []
    else
      (if events[0].Validation? && Verdict(validity, true, nonces, events[0].request).Ok?
       then [events[0].request] else [])
      + Accepts(validity, retention, After(validity, retention, nonces, events[0]), events[1..])
  }

  predicate SameCredential(c: Credential, d: Credential) {
    c.nonce == d.nonce && c.timestamp == d.timestamp
  }

  /** No two of the accepted requests share a nonempty nonce and a timestamp. */
  predicate NoReplay(accepted: seq<Request>) {
    forall i, j :: 0 <= i < j < |accepted| && accepted[i].cred.nonce != ""
      ==> !SameCredential(accepted[i].cred, accepted[j].cred)
  }

  lemma OneMoreAccepted(q: Request, rest: seq<Request>)
    requires NoReplay(rest)
    requires forall r :: r in rest && q.cred.nonce != "" ==> !SameCredential(q.cred, r.cred)
    ensures NoReplay([q] + rest)
  {
    var all := [q] + rest;
    forall i, j | 0 <= i < j < |all| && all[i].cred.nonce != ""
      ensures !SameCredential(all[i].cred, all[j].cred)
    {
      assert all[j] == rest[j - 1] && rest[j - 1] in rest;
      assert i > 0 ==> all[i] == rest[i - 1];
    }
  }

  /** While its nonce is on record past the end of its window, or that window is over,
      a credential cannot be accepted again. */
  predicate Spent(validity: int, nonces: Nonces, c: Credential, t: int) {
    var end := c.timestamp * SECOND_NS + validity;
    (c.nonce in nonces && end <= nonces[c.nonce]) || end < t
  }

  lemma {:induction false} SpentCleaned(validity: int, nonces: Nonces, c: Credential, t: int, passes: seq<int>,
                                        end: int)
    requires Spent(validity, nonces, c, t) && t <= end
    requires forall i :: 0 <= i < |passes| ==> t <= passes[i] <= end
    requires forall i, j :: 0 <= i < j < |passes| ==> passes[i] <= passes[j]
    ensures Spent(validity, CleanedAll(nonces, passes), c, end)
    decreases |passes|
  {
    if passes != [] {
      SpentCleaned(validity, Cleaned(nonces, passes[0]), c, passes[0], passes[1..], end);
    }
  }

  lemma SpentStep(validity: int, retention: int, nonces: Nonces, c: Credential, t: int, e: Event)
    requires retention >= 2 * validity && c.nonce != "" && Spent(validity, nonces, c, t)
    requires t <= e.First() && (e.Validation? ==> e.request.InOrder())
    ensures Spent(validity, After(validity, retention, nonces, e), c, e.Last())
    ensures e.Validation? && Verdict(validity, true, nonces, e.request).Ok? ==> !SameCredential(c, e.request.cred)
  {
    if e.Validation? && LooksUp(validity, true, nonces, e.request) {
      SpentCleaned(validity, nonces, c, t, e.request.service.passes, e.request.at.store);
    }
  }

  lemma {:induction false} SpentRun(validity: int, retention: int, nonces: Nonces, c: Credential, t: int,
                                    events: seq<Event>)
    requires retention >= 2 * validity && c.nonce != "" && Spent(validity, nonces, c, t) && InOrder(t, events)
    ensures forall r :: r in Accepts(validity, retention, nonces, events) ==> !SameCredential(c, r.cred)
    decreases |events|
  {
    if events != [] {
      SpentStep(validity, retention, nonces, c, t, events[0]);
      SpentRun(validity, retention, After(validity, retention, nonces, events[0]), c, events[0].Last(), events[1..]);
    }
  }

  lemma AcceptedIsSpent(validity: int, retention: int, nonces: Nonces, q: Request)
    requires retention >= 2 * validity && q.cred.nonce != "" && q.InOrder() && !q.service.storeFails
    requires Verdict(validity, true, nonces, q).Ok?
    ensures Spent(validity, Recorded(validity, retention, true, nonces, q), q.cred, q.at.done)
  {
  }

  /** The nonce store writes every nonce it is given. */
  predicate Reliable(events: seq<Event>) {
    forall i :: 0 <= i < |events| && events[i].Validation? ==> !events[i].request.service.storeFails
  }

  lemma ReliableTail(events: seq<Event>)
    requires events != [] && Reliable(events)
    ensures Reliable(events[1..]) && (events[0].Validation? ==> !events[0].request.service.storeFails)
  {
  }

  lemma {:induction false} LongRetention(validity: int, retention: int, nonces: Nonces, t: int, events: seq<Event>)
    requires retention >= 2 * validity && InOrder(t, events) && Reliable(events)
    ensures NoReplay(Accepts(validity, retention, nonces, events))
    decreases |events|
  {
    if events != [] {
      var e, nonces' := events[0], After(validity, retention, nonces, events[0]);
      ReliableTail(events);
      LongRetention(validity, retention, nonces', e.Last(), events[1..]);
      if e.Validation? && Verdict(validity, true, nonces, e.request).Ok? {
        if e.request.cred.nonce != "" {
          AcceptedIsSpent(validity, retention, nonces, e.request);
          SpentRun(validity, retention, nonces', e.request.cred, e.Last(), events[1..]);
        }
        OneMoreAccepted(e.request, Accepts(validity, retention, nonces', events[1..]));
      }
    }
  }

  /** No credential is accepted twice: in every run of validations, clock advances and
      cleanup passes, on a store that writes what it is given, from any nonces on record,
      a credential with a given nonempty nonce and timestamp is accepted at most once. */
  lemma AcceptedAtMostOnce(validity: int, nonces: Nonces, t: int, events: seq<Event>)
    requires InOrder(t, events) && Reliable(events)
    ensures NoReplay(Accepts(validity, 2 * validity, nonces, events))
  {
    LongRetention(validity, 2 * validity, nonces, t, events);
  }

  /** Every run with this retention, from an instant on, is free of replays, on a store
      that may or may not fail to write. */
  ghost predicate Safe(validity: int, retention: int, start: int, mayFail: bool) {
    forall nonces: Nonces, t: int, events: seq<Event> ::
      start <= t && InOrder(t, events) && (mayFail || Reliable(events)) ==>
        NoReplay(Accepts(validity, retention, nonces, events))
  }

  lemma InOrderCons(t: int, e: Event, events: seq<Event>)
    requires t <= e.First() && (e.Validation? ==> e.request.InOrder()) && InOrder(e.Last(), events)
    ensures InOrder(t, [e] + events)
  {
    assert ([e] + events)[1..] == events;
  }

  /** A credential validated at one instant. */
  function ProbeAt(timestamp: int, now: int): Request {
    Request(Credential(Hmac, "key", "sig", timestamp, "n"), Readings(now, now, now, now), Some("secret"), "sig",
            Service(false, false, []))
  }

  lemma ProbePasses(validity: int, retention: int, nonces: Nonces, timestamp: int, now: int)
    requires -validity <= now - timestamp * SECOND_NS <= validity && "n" !in nonces
    ensures Verdict(validity, true, nonces, ProbeAt(timestamp, now)).Ok?
    ensures Recorded(validity, retention, true, nonces, ProbeAt(timestamp, now)) == nonces["n" := now + retention]
  {
  }

  /** Accepted at the first instant of its window, a credential is accepted again at
      the last one if a cleanup pass has dropped its nonce by then. */
  lemma ShortRetention(validity: int, retention: int, timestamp: int)
    requires 0 <= validity && retention < 2 * validity
    ensures !Safe(validity, retention, timestamp * SECOND_NS - validity, false)
  {
    hide Verdict, Recorded, Accepts, Cleaned, InOrder, ProbeAt;
    var first, last := timestamp * SECOND_NS - validity, timestamp * SECOND_NS + validity;
    var early, late := ProbeAt(timestamp, first), ProbeAt(timestamp, last);
    ProbesInOrder(timestamp, first, last);
    ProbePasses(validity, retention, map[], timestamp, first);
    ProbePasses(validity, retention, map[], timestamp, last);
    CleansUp(first + retention, last);
    AcceptsOne(validity, retention, map[], early, [Cleanup(last), Validation(late)]);
    SkipsCleanup(validity, retention, map["n" := first + retention], last, [Validation(late)]);
    AcceptsOne(validity, retention, map[], late, []);
    var none: Nonces := map[];
    assert none["n" := first + retention] == map["n" := first + retention];
    var twice := Accepts(validity, retention, map[], [Validation(early), Cleanup(last), Validation(late)]);
    assert twice == [early] + ([late] + Accepts(validity, retention, none["n" := last + retention], [])) by {
      var events := [Validation(early), Cleanup(last), Validation(late)];
      assert events == [Validation(early)] + [Cleanup(last), Validation(late)];
      assert [Cleanup(last), Validation(late)] == [Cleanup(last)] + [Validation(late)];
      assert [Validation(late)] + [] == [Validation(late)];
    }
    assert twice[0] == early && twice[1] == late;
    assert SameCredential(early.cred, late.cred) && early.cred.nonce != "" by {
      SameProbe(timestamp, first, last);
    }
  }

  lemma SameProbe(timestamp: int, first: int, last: int)
    ensures SameCredential(ProbeAt(timestamp, first).cred, ProbeAt(timestamp, last).cred)
    ensures ProbeAt(timestamp, first).cred.nonce != ""
  {
  }

  lemma ProbesInOrder(timestamp: int, first: int, last: int)
    requires first <= last
    ensures var (early, late) := (ProbeAt(timestamp, first), ProbeAt(timestamp, last));
      var events := [Validation(early), Cleanup(last), Validation(late)];
      InOrder(first, events) && Reliable(events)
  {
    var early, late := ProbeAt(timestamp, first), ProbeAt(timestamp, last);
    var tail := [Cleanup(last), Validation(late)];
    assert [Validation(early)] + tail == [Validation(early), Cleanup(last), Validation(late)];
    assert tail == [Cleanup(last)] + [Validation(late)];
    InOrderCons(first, Cleanup(last), [Validation(late)]);
    InOrderCons(first, Validation(early), [Cleanup(last), Validation(late)]);
  }

  lemma CleansUp(expiry: int, now: int)
    requires expiry < now
    ensures var nonces: Nonces := map["n" := expiry]; Cleaned(nonces, now) == map[]
  {
  }

  lemma AcceptsOne(validity: int, retention: int, nonces: Nonces, q: Request, rest: seq<Event>)
    requires Verdict(validity, true, nonces, q).Ok?
    ensures Accepts(validity, retention, nonces, [Validation(q)] + rest)
         == [q] + Accepts(validity, retention, Recorded(validity, retention, true, nonces, q), rest)
  {
    Cons(Validation(q), rest);
  }

  lemma SkipsCleanup(validity: int, retention: int, nonces: Nonces, now: int, rest: seq<Event>)
    ensures Accepts(validity, retention, nonces, [Cleanup(now)] + rest)
         == Accepts(validity, retention, Cleaned(nonces, now), rest)
  {
    Cons(Cleanup(now), rest);
    EmptySeq(Accepts(validity, retention, Cleaned(nonces, now), rest));
  }

  /** A credential whose nonce the store fails to write is accepted again at once. */
  lemma FailureReplays(validity: int, retention: int, timestamp: int)
    requires 0 <= validity
    ensures !Safe(validity, retention, timestamp * SECOND_NS, true)
  {
    var now := timestamp * SECOND_NS;
    var q := ProbeAt(timestamp, now).(service := Service(false, true, []));
    var none: Nonces := map[];
    assert Verdict(validity, true, none, q).Ok? && Recorded(validity, retention, true, none, q) == none;
    hide Verdict, Recorded, Accepts;
    AcceptsOne(validity, retention, none, q, []);
    AcceptsOne(validity, retention, none, q, [Validation(q)]);
    var events := [Validation(q)] + [Validation(q)];
    assert [Validation(q)] + [] == [Validation(q)];
    InOrderCons(now, Validation(q), []);
    InOrderCons(now, Validation(q), [Validation(q)]);
    var twice := Accepts(validity, retention, none, events);
    assert twice[0] == q && twice[1] == q && SameCredential(q.cred, q.cred);
  }

  /** Whenever the runs start, replays are ruled out exactly by a store that writes every
      nonce and keeps it for at least twice the validity. */
  lemma RetentionIsTight(validity: int, retention: int, start: int, mayFail: bool)
    requires 0 <= validity
    ensures Safe(validity, retention, start, mayFail) <==> retention >= 2 * validity && !mayFail
  {
    var timestamp := MaxInt(0, start) + validity;
    assert start <= timestamp * SECOND_NS - validity;
    if mayFail {
      FailureReplays(validity, retention, timestamp);
    } else if retention < 2 * validity {
      ShortRetention(validity, retention, timestamp);
    } else {
      forall nonces: Nonces, t: int, events: seq<Event> | InOrder(t, events) && Reliable(events)
        ensures NoReplay(Accepts(validity, retention, nonces, events))
      {
        LongRetention(validity, retention, nonces, t, events);
      }
    }
  }

  // ----- what acceptance and refusal mean

  /** The credential is what it claims to be, and in time. */
  predicate Genuine(validity: int, q: Request) {
    && q.cred.kind == Hmac && q.secret.Some? && q.cred.signature == q.expected
    && Since(q.cred, q.at.expired) <= validity && -validity <= Since(q.cred, q.at.future)
  }

  /** The checks in the order they are made, with what each would answer. */
  function Checks(validity: int, hasStore: bool, nonces: Nonces, q: Request): seq<(bool, Error)> {
    var looksUp := hasStore && q.cred.nonce != "";
    [ (q.cred.kind == Hmac, WrongType),
      (q.at.expired - q.cred.timestamp * SECOND_NS <= validity, Expired),
      (q.at.future - q.cred.timestamp * SECOND_NS >= -validity, FromFuture),
      (!(looksUp && q.service.checkFails), CheckFailed),
      (!(looksUp && q.cred.nonce in nonces), Replayed),
      (q.secret.Some?, UnknownKey),
      (q.cred.signature == q.expected, BadSignature) ]
  }

  /** A refusal names the first check that fails; without one the credential is accepted,
      with or without a nonce store. */
  lemma RefusalNamesTheFirstCheck(validity: int, hasStore: bool, nonces: Nonces, q: Request)
    ensures var (r, checks) := (Verdict(validity, hasStore, nonces, q), Checks(validity, hasStore, nonces, q));
      && (r.Ok? <==> forall i :: 0 <= i < |checks| ==> checks[i].0)
      && (r.Err? ==> exists i :: 0 <= i < |checks| && !checks[i].0 && checks[i].1 == r.error
                                 && forall j :: 0 <= j < i ==> checks[j].0)
      && (r.Ok? ==> Genuine(validity, q))
      && (r.Ok? ==> r.value == Accepted(q.cred.accessKey, q.cred.accessKey, q.at.done + validity))
  {
    var (r, checks) := (Verdict(validity, hasStore, nonces, q), Checks(validity, hasStore, nonces, q));
    if r.Err? {
      var i := match r.error
        case WrongType => 0
        case Expired => 1
        case FromFuture => 2
        case CheckFailed => 3
        case Replayed => 4
        case UnknownKey => 5
        case BadSignature => 6;
      assert !checks[i].0 && checks[i].1 == r.error && forall j :: 0 <= j < i ==> checks[j].0;
    }
  }

  /** Only a validation that gets past the lookup meets the cleanup passes in between, and only
      one that accepts a nonce records it. */
  lemma RecordedAfter(validity: int, retention: int, hasStore: bool, nonces: Nonces, q: Request)
    ensures var r := Verdict(validity, hasStore, nonces, q);
      var looked := hasStore && q.cred.nonce != "" && (r.Ok? || r.error in {UnknownKey, BadSignature});
      var recorded := looked && r.Ok? && !q.service.storeFails;
      var nonces' := Recorded(validity, retention, hasStore, nonces, q);
      && (!looked ==> nonces' == nonces)
      && (recorded ==> q.cred.nonce in nonces' && nonces'[q.cred.nonce] == q.at.store + retention)
      && forall n :: looked && !(recorded && n == q.cred.nonce) ==>
           (n in nonces' <==> Survives(nonces, q.service.passes, n))
  {
    CleaningDropsThePast(nonces, q.service.passes);
  }

  function AfterAll(validity: int, retention: int, nonces: Nonces, events: seq<Event>): Nonces
    decreases |events|
  {
    if events == [] then nonces
    else AfterAll(validity, retention, After(validity, retention, nonces, events[0]), events[1..])
  }

  /** Only accepted credentials leave a nonce on record. */
  lemma {:induction false} OnRecordWasAccepted(validity: int, retention: int, nonces: Nonces, events: seq<Event>,
                                               n: string)
    requires n in AfterAll(validity, retention, nonces, events)
    ensures n in nonces || exists q :: q in Accepts(validity, retention, nonces, events) && q.cred.nonce == n
    decreases |events|
  {
    if events != [] {
      var e, nonces' := events[0], After(validity, retention, nonces, events[0]);
      OnRecordWasAccepted(validity, retention, nonces', events[1..], n);
      if n !in nonces' {
        var q :| q in Accepts(validity, retention, nonces', events[1..]) && q.cred.nonce == n;
        assert q in Accepts(validity, retention, nonces, events);
      } else if n !in nonces {
        CleaningDropsThePast(nonces, if e.Validation? then e.request.service.passes else []);
        assert e.request in Accepts(validity, retention, nonces, events);
      }
    }
  }

  /** Refused credentials cost nothing: after every run from an empty store, a genuine
      credential whose nonce no accepted one has used is accepted, if the lookup works. */
  lemma FirstUseIsAccepted(validity: int, retention: int, events: seq<Event>, q: Request)
    requires Genuine(validity, q) && !q.service.checkFails
    requires forall r :: r in Accepts(validity, retention, map[], events) ==> r.cred.nonce != q.cred.nonce
    ensures Verdict(validity, true, AfterAll(validity, retention, map[], events), q)
         == Ok(Accepted(q.cred.accessKey, q.cred.accessKey, q.at.done + validity))
  {
    if q.cred.nonce in AfterAll(validity, retention, map[], events) {
      OnRecordWasAccepted(validity, retention, map[], events, q.cred.nonce);
      assert false;
    }
  }

  // ----- one signature, one use

  function Digits(n: nat): (s: string)
    ensures s != "" && forall i :: 0 <= i < |s| ==> '0' <= s[i] <= '9'
  {
    if n < 10 then [Digit(n)] else Digits(n / 10) + [Digit(n % 10)]
  }

  function Digit(d: nat): (c: char)
    requires d < 10
    ensures '0' <= c <= '9'
  {
    '0' + d as char
  }

  function Decimal(n: int): string {
    if n < 0 then "-" + Digits(-n) else Digits(n)
  }

  /** What is signed: access key, timestamp and nonce, one after the other. */
  function SignedText(accessKey: string, timestamp: int, nonce: string): string {
    accessKey + Decimal(timestamp) + nonce
  }

  lemma {:induction false} DigitsDiffer(a: nat, b: nat)
    requires Digits(a) == Digits(b)
    ensures a == b
  {
    assert |Digits(a)| == 1 <==> a < 10;
    assert |Digits(b)| == 1 <==> b < 10;
    var x, y := Digits(a), Digits(b);
    assert x[|x| - 1] == Digit(a % 10) && y[|y| - 1] == Digit(b % 10);
    if a >= 10 {
      assert x[..|x| - 1] == Digits(a / 10) && y[..|y| - 1] == Digits(b / 10);
      DigitsDiffer(a / 10, b / 10);
    }
  }

  /** Digits that go on mean a number at least ten times as large. */
  lemma {:induction false} DigitsGoOn(a: nat, b: nat, more: string)
    requires Digits(a) + more == Digits(b) && more != ""
    ensures a > 0 && b >= 10 * a
    decreases b
  {
    assert b >= 10;
    var all := Digits(b);
    var less := more[..|more| - 1];
    assert all[..|all| - 1] == Digits(b / 10);
    assert all[..|all| - 1] == Digits(a) + less;
    if less == "" {
      assert Digits(a) + less == Digits(a);
      DigitsDiffer(a, b / 10);
    } else {
      DigitsGoOn(a, b / 10, less);
    }
  }

  lemma DecimalsDiffer(a: int, b: int)
    requires Decimal(a) == Decimal(b)
    ensures a == b
  {
    SignShows(a);
    SignShows(b);
    hide Decimal, Digits;
    if a < 0 {
      DigitsDiffer(-a, -b);
    } else {
      DigitsDiffer(a, b);
    }
  }

  /** Ten times as far from zero, on the same side. */
  predicate Longer(a: int, b: int) {
    (a > 0 && b >= 10 * a) || (a < 0 && b <= 10 * a)
  }

  lemma DecimalGoesOn(a: int, b: int, more: string)
    requires Decimal(a) + more == Decimal(b) && more != ""
    ensures Longer(a, b)
  {
    SignShows(a);
    SignShows(b);
    hide Decimal, Digits;
    assert Decimal(b)[0] == Decimal(a)[0];
    if a < 0 {
      TailGoesOn(Decimal(a), more, Decimal(b));
      DigitsGoOn(-a, -b, more);
    } else {
      DigitsGoOn(a, b, more);
    }
  }

  lemma SignShows(n: int)
    ensures Decimal(n) != "" && (n < 0 <==> Decimal(n)[0] == '-')
    ensures Decimal(n) == if n < 0 then "-" + Digits(-n) else Digits(n)
    ensures n < 0 ==> Decimal(n)[1..] == Digits(-n)
  {
    hide Digits;
  }

  lemma TailGoesOn(s: string, more: string, t: string)
    requires s != "" && s + more == t
    ensures s[1..] + more == t[1..]
  {
  }

  /** One text stands for two timestamps only if one of them is the other with more digits. */
  lemma SameText(accessKey: string, a: int, x: string, b: int, y: string)
    requires SignedText(accessKey, a, x) == SignedText(accessKey, b, y)
    ensures (a == b && x == y) || Longer(a, b) || Longer(b, a)
  {
    hide Decimal, Longer;
    var s, t := Decimal(a), Decimal(b);
    Strip(accessKey, s, x, t, y);
    var more := GoesOn(s, x, t, y);
    if more == "" {
      DecimalsDiffer(a, b);
    } else if s + more == t {
      DecimalGoesOn(a, b, more);
    } else {
      DecimalGoesOn(b, a, more);
    }
  }

  lemma Strip(front: string, s: string, x: string, t: string, y: string)
    requires front + s + x == front + t + y
    ensures s + x == t + y
  {
    assert front + (s + x) == front + s + x && front + (t + y) == front + t + y;
    assert (front + (s + x))[|front|..] == s + x && (front + (t + y))[|front|..] == t + y;
  }

  /** Of two beginnings of one string, one goes on where the other ends. */
  lemma GoesOn(s: string, x: string, t: string, y: string) returns (more: string)
    requires s + x == t + y
    ensures s + more == t || t + more == s
    ensures more == "" ==> s == t && x == y
  {
    var all := s + x;
    assert all[..|s|] == s && all[..|t|] == t && all[|s|..] == x;
    assert (t + y)[|t|..] == y;
    more := if |s| <= |t| then all[|s|..|t|] else all[|t|..|s|];
  }

  /** No timestamp that readings from lo to hi accept has more digits than another one and
      begins with them: neither the least positive one nor the largest negative one times
      ten is accepted. */
  predicate OneLength(validity: int, lo: int, hi: int) {
    var first := MaxInt(1, -((validity - lo) / SECOND_NS));
    var last := -MaxInt(1, -((hi + validity) / SECOND_NS));
    10 * first * SECOND_NS > hi + validity && 10 * last * SECOND_NS < lo - validity
  }

  predicate Accepting(validity: int, lo: int, hi: int, timestamp: int) {
    lo - validity <= timestamp * SECOND_NS <= hi + validity
  }

  lemma OneLengthIff(validity: int, lo: int, hi: int)
    ensures OneLength(validity, lo, hi)
      <==> !exists a, b :: Accepting(validity, lo, hi, a) && Accepting(validity, lo, hi, b) && Longer(a, b)
  {
    var first := MaxInt(1, -((validity - lo) / SECOND_NS));
    var last := -MaxInt(1, -((hi + validity) / SECOND_NS));
    if !OneLength(validity, lo, hi) {
      var n := if 10 * first * SECOND_NS <= hi + validity then first else last;
      assert Accepting(validity, lo, hi, n) && Accepting(validity, lo, hi, 10 * n) && Longer(n, 10 * n);
    }
  }

  /** Validations for one access key, whose secret gives the signatures. */
  predicate Signed(accessKey: string, sign: string -> string, events: seq<Event>) {
    forall i :: 0 <= i < |events| && events[i].Validation? ==>
      var q := events[i].request;
      q.cred.accessKey == accessKey && q.expected == sign(SignedText(accessKey, q.cred.timestamp, q.cred.nonce))
  }

  predicate DoneBy(events: seq<Event>, hi: int) {
    forall i :: 0 <= i < |events| ==> events[i].Last() <= hi
  }

  /** No two accepted requests share a signature, unless both came without a nonce. */
  predicate NoReuse(accepted: seq<Request>) {
    forall i, j :: 0 <= i < j < |accepted| && accepted[i].cred.signature == accepted[j].cred.signature
      ==> accepted[i].cred.nonce == "" == accepted[j].cred.nonce
  }

  /** Every run with readings from lo to hi, on a store that writes every nonce, uses each signature once. */
  ghost predicate UsedOnce(validity: int, accessKey: string, sign: string -> string, lo: int, hi: int) {
    forall nonces: Nonces, events: seq<Event> ::
      InOrder(lo, events) && Reliable(events) && DoneBy(events, hi) && Signed(accessKey, sign, events) ==>
        NoReuse(Accepts(validity, 2 * validity, nonces, events))
  }

  ghost predicate Injective(sign: string -> string) {
    forall s, t :: sign(s) == sign(t) ==> s == t
  }

  lemma {:induction false} AcceptedIsSigned(validity: int, nonces: Nonces, accessKey: string, sign: string -> string,
                                            lo: int, hi: int, events: seq<Event>)
    requires InOrder(lo, events) && Reliable(events) && DoneBy(events, hi) && Signed(accessKey, sign, events)
    ensures forall q :: q in Accepts(validity, 2 * validity, nonces, events) ==>
      && Accepting(validity, lo, hi, q.cred.timestamp)
      && q.cred.signature == sign(SignedText(accessKey, q.cred.timestamp, q.cred.nonce))
    decreases |events|
  {
    if events != [] {
      var nonces' := After(validity, 2 * validity, nonces, events[0]);
      assert InOrder(lo, events[1..]) by {
        Earlier(lo, events[0].Last(), events[1..]);
      }
      ReliableTail(events);
      assert DoneBy(events[1..], hi) && Signed(accessKey, sign, events[1..]) by {
        forall i | 0 <= i < |events| - 1 ensures events[1..][i] == events[i + 1] {
        }
      }
      AcceptedIsSigned(validity, nonces', accessKey, sign, lo, hi, events[1..]);
    }
  }

  lemma Earlier(t: int, u: int, events: seq<Event>)
    requires t <= u && InOrder(u, events)
    ensures InOrder(t, events)
  {
  }

  lemma OneLengthSuffices(validity: int, accessKey: string, sign: string -> string, lo: int, hi: int,
                          nonces: Nonces, events: seq<Event>)
    requires Injective(sign) && OneLength(validity, lo, hi)
    requires InOrder(lo, events) && Reliable(events) && DoneBy(events, hi) && Signed(accessKey, sign, events)
    ensures NoReuse(Accepts(validity, 2 * validity, nonces, events))
  {
    var accepted := Accepts(validity, 2 * validity, nonces, events);
    AcceptedIsSigned(validity, nonces, accessKey, sign, lo, hi, events);
    AcceptedAtMostOnce(validity, nonces, lo, events);
    OneLengthIff(validity, lo, hi);
    hide Accepts, SignedText, Accepting, Longer, OneLength, InOrder, DoneBy, Signed;
    forall i, j | 0 <= i < j < |accepted| && accepted[i].cred.signature == accepted[j].cred.signature
      ensures accepted[i].cred.nonce == "" == accepted[j].cred.nonce
    {
      assert accepted[i] in accepted && accepted[j] in accepted;
      var c, d := accepted[i].cred, accepted[j].cred;
      SameText(accessKey, c.timestamp, c.nonce, d.timestamp, d.nonce);
      assert SameCredential(c, d);
    }
  }

  /** A validation at the instant from lo to hi that is nearest to its timestamp. */
  function Nearest(accessKey: string, sign: string -> string, lo: int, hi: int, timestamp: int, nonce: string)
    : Request
  {
    var now := if timestamp * SECOND_NS < lo then lo else if hi < timestamp * SECOND_NS then hi
               else timestamp * SECOND_NS;
    var signature := sign(SignedText(accessKey, timestamp, nonce));
    Request(Credential(Hmac, accessKey, signature, timestamp, nonce), Readings(now, now, now, now), Some(""), signature,
            Service(false, false, []))
  }

  /** Two timestamps in one text, each with a nonce of its own, are both accepted. */
  lemma BothAccepted(validity: int, accessKey: string, sign: string -> string, lo: int, hi: int,
                     a: int, x: string, b: int, y: string)
    requires 0 <= validity && lo <= hi && a <= b && x != y && x != "" && y != ""
    requires Accepting(validity, lo, hi, a) && Accepting(validity, lo, hi, b)
    requires SignedText(accessKey, a, x) == SignedText(accessKey, b, y)
    ensures !UsedOnce(validity, accessKey, sign, lo, hi)
  {
    hide *;
    var q, r := Nearest(accessKey, sign, lo, hi, a, x), Nearest(accessKey, sign, lo, hi, b, y);
    var none: Nonces := map[];
    var nonces := none[x := q.at.store + 2 * validity];
    NearestPasses(validity, accessKey, sign, lo, hi, a, x, none);
    NearestPasses(validity, accessKey, sign, lo, hi, b, y, nonces);
    NearestInOrder(accessKey, sign, lo, hi, a, x, b, y);
    AcceptsOne(validity, 2 * validity, none, q, [Validation(r)]);
    AcceptsOne(validity, 2 * validity, nonces, r, []);
    assert [Validation(r)] + [] == [Validation(r)];
    var accepted := Accepts(validity, 2 * validity, none, [Validation(q)] + [Validation(r)]);
    assert accepted[0] == q && accepted[1] == r;
    ReusedOnce(accepted);
    NotUsedOnce(validity, accessKey, sign, lo, hi, none, [Validation(q)] + [Validation(r)]);
  }

  lemma NearestPasses(validity: int, accessKey: string, sign: string -> string, lo: int, hi: int,
                      timestamp: int, nonce: string, nonces: Nonces)
    requires 0 <= validity && lo <= hi && Accepting(validity, lo, hi, timestamp) && nonce != "" && nonce !in nonces
    ensures var q := Nearest(accessKey, sign, lo, hi, timestamp, nonce);
      && Verdict(validity, true, nonces, q).Ok?
      && Recorded(validity, 2 * validity, true, nonces, q) == nonces[nonce := q.at.store + 2 * validity]
      && q.cred.nonce == nonce && q.cred.signature == sign(SignedText(accessKey, timestamp, nonce))
  {
    hide SignedText;
  }

  lemma NearestInOrder(accessKey: string, sign: string -> string, lo: int, hi: int,
                       a: int, x: string, b: int, y: string)
    requires lo <= hi && a <= b
    ensures var (q, r) := (Nearest(accessKey, sign, lo, hi, a, x), Nearest(accessKey, sign, lo, hi, b, y));
      var events := [Validation(q)] + [Validation(r)];
      InOrder(lo, events) && Reliable(events) && DoneBy(events, hi) && Signed(accessKey, sign, events)
  {
    hide SignedText;
    var q, r := Nearest(accessKey, sign, lo, hi, a, x), Nearest(accessKey, sign, lo, hi, b, y);
    InOrderCons(r.at.done, Validation(r), []);
    assert [Validation(r)] + [] == [Validation(r)];
    InOrderCons(lo, Validation(q), [Validation(r)]);
  }

  lemma ReusedOnce(accepted: seq<Request>)
    requires |accepted| >= 2 && accepted[0].cred.signature == accepted[1].cred.signature
    requires accepted[0].cred.nonce != ""
    ensures !NoReuse(accepted)
  {
  }

  lemma NotUsedOnce(validity: int, accessKey: string, sign: string -> string, lo: int, hi: int,
                    nonces: Nonces, events: seq<Event>)
    requires InOrder(lo, events) && Reliable(events) && DoneBy(events, hi) && Signed(accessKey, sign, events)
    requires !NoReuse(Accepts(validity, 2 * validity, nonces, events))
    ensures !UsedOnce(validity, accessKey, sign, lo, hi)
  {
  }

  lemma TimesTen(n: int)
    requires n != 0
    ensures Decimal(10 * n) == Decimal(n) + "0"
  {
    hide Digits;
    if n < 0 {
      OneMoreDigit(-n);
      Assoc("-", Digits(-n), "0");
    } else {
      OneMoreDigit(n);
    }
  }

  lemma OneMoreDigit(n: nat)
    requires n > 0
    ensures Digits(10 * n) == Digits(n) + "0"
  {
    assert Digit(0) == '0';
  }

  lemma OneLengthNeeded(validity: int, accessKey: string, sign: string -> string, lo: int, hi: int)
    requires 0 <= validity && lo <= hi && !OneLength(validity, lo, hi)
    ensures !UsedOnce(validity, accessKey, sign, lo, hi)
  {
    var first := MaxInt(1, -((validity - lo) / SECOND_NS));
    var last := -MaxInt(1, -((hi + validity) / SECOND_NS));
    var n := if 10 * first * SECOND_NS <= hi + validity then first else last;
    TimesTen(n);
    assert SignedText(accessKey, 10 * n, "0") == SignedText(accessKey, n, "00") by {
      assert accessKey + (Decimal(n) + "0") + "0" == accessKey + Decimal(n) + "00";
    }
    hide SignedText, Decimal, UsedOnce;
    if n > 0 {
      BothAccepted(validity, accessKey, sign, lo, hi, n, "00", 10 * n, "0");
    } else {
      BothAccepted(validity, accessKey, sign, lo, hi, 10 * n, "0", n, "00");
    }
  }

  /** For one access key and a signature that tells texts apart: over readings from lo to
      hi no signature that came with a nonce is accepted twice, exactly when no accepted
      timestamp goes on where another one ends. */
  lemma UsedOnceIffOneLength(validity: int, accessKey: string, sign: string -> string, lo: int, hi: int)
    requires 0 <= validity && lo <= hi && Injective(sign)
    ensures UsedOnce(validity, accessKey, sign, lo, hi) <==> OneLength(validity, lo, hi)
  {
    if OneLength(validity, lo, hi) {
      forall nonces: Nonces, events: seq<Event>
        | InOrder(lo, events) && Reliable(events) && DoneBy(events, hi) && Signed(accessKey, sign, events)
        ensures NoReuse(Accepts(validity, 2 * validity, nonces, events))
      {
        OneLengthSuffices(validity, accessKey, sign, lo, hi, nonces, events);
      }
    } else {
      OneLengthNeeded(validity, accessKey, sign, lo, hi);
    }
  }
}
