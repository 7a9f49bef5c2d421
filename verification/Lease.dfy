/** The Redis lease lock: SET NX with a fresh token, compare-and-expire,
    compare-and-delete and an ownership check, by any number of clients over one store. */
module Lease {
  import opened Wrappers

  const MILLISECOND_NS := 1_000_000

  // ----- the server

  datatype Entry = Entry(token: string, deadline: int)

  /** A key is gone from its deadline on. */
  datatype Store = Store(data: map<string, Entry>, clock: int)

  function Holder(s: Store, key: string): Option<string> {
    if key in s.data && s.clock < s.data[key].deadline then Some(s.data[key].token) else None
  }

  /** SET NX with a lifetime; one under a millisecond is sent as a millisecond. */
  function SetNx(s: Store, key: string, token: string, ttl: int): (Store, bool)
    requires ttl > 0
  {
    if Holder(s, key).Some? then (s, false)
    else (s.(data := s.data[key := Entry(token, s.clock + MaxInt(1, ttl / MILLISECOND_NS))]), true)
  }

  /** renewScript; PEXPIRE with 0 removes the key and still answers 1. */
  function RenewScript(s: Store, key: string, token: string, ms: int): (Store, int) {
    if Holder(s, key) != Some(token) then (s, 0)
    else if ms <= 0 then (s.(data := s.data - {key}), 1)
    else (s.(data := s.data[key := Entry(token, s.clock + ms)]), 1)
  }

  /** releaseScript. */
  function ReleaseScript(s: Store, key: string, token: string): (Store, int) {
    if Holder(s, key) == Some(token) then (s.(data := s.data - {key}), 1) else (s, 0)
  }

  // ----- the service

  datatype Error = NoClient | EmptyKey | EmptyLease | NonPositiveTtl | NoToken | Io

  datatype Handle = Handle(key: string, token: string, ttl: int, owner: string, acquiredAt: int)

  datatype Attempt = Refused | Granted(lease: Handle)

  const NO_LEASE := Handle("", "", 0, "", 0)

  predicate Blank(lease: Handle) {
    lease.key == "" || lease.token == ""
  }

  /** What each call does to the store and answers on a connected client. token is what
      the token source produces, None when it fails; now is the local clock. */
  function Acquired(s: Store, key: string, ttl: int, owner: string, token: Option<string>, delivery: Delivery, now: int)
    : (Store, Result<Attempt, Error>)
  {
    if key == "" then (s, Err(EmptyKey))
    else if ttl <= 0 then (s, Err(NonPositiveTtl))
    else if token.None? then (s, Err(NoToken))
    else if delivery.RequestLost? then (s, Err(Io))
    else
      var (s', ok) := SetNx(s, key, token.value, ttl);
      (s', if delivery.ReplyLost? then Err(Io)
           else Ok(if ok then Granted(Handle(key, token.value, ttl, owner, now)) else Refused))
  }

  /** None stands for the source's false: the lease is no longer ours. */
  function Renewed(s: Store, lease: Handle, ttl: int, delivery: Delivery, now: int)
    : (Store, Result<Option<Handle>, Error>)
  {
    if Blank(lease) then (s, Err(EmptyLease))
    else if ttl <= 0 then (s, Err(NonPositiveTtl))
    else if delivery.RequestLost? then (s, Err(Io))
    else
      var (s', n) := RenewScript(s, lease.key, lease.token, ttl / MILLISECOND_NS);
      (s', if delivery.ReplyLost? then Err(Io)
           else Ok(if n == 0 then None else Some(lease.(ttl := ttl, acquiredAt := now))))
  }

  function Released(s: Store, lease: Handle, delivery: Delivery): (Store, Result<(), Error>) {
    if Blank(lease) then (s, Ok(()))
    else if delivery.RequestLost? then (s, Err(Io))
    else (ReleaseScript(s, lease.key, lease.token).0, if delivery.ReplyLost? then Err(Io) else Ok(()))
  }

  function Owned(s: Store, lease: Handle, delivery: Delivery): Result<bool, Error> {
    if Blank(lease) then Err(EmptyLease)
    else if !delivery.Delivered? then Err(Io)
    else Ok(Holder(s, lease.key) == Some(lease.token))
  }

  class Service {
    const hasClient: bool
    var store: Store

    constructor (hasClient: bool, store: Store)
      ensures this.hasClient == hasClient && this.store == store
    {
      this.hasClient := hasClient;
      this.store := store;
    }

    method Acquire(key: string, ttl: int, owner: string, token: Option<string>, delivery: Delivery, now: int)
      returns (r: Result<Attempt, Error>)
      modifies this
      ensures (store, r) == if hasClient then Acquired(old(store), key, ttl, owner, token, delivery, now)
                            else (old(store), Err(NoClient))
    {
      if !hasClient {
        return Err(NoClient);
      }
      if key == "" {
        return Err(EmptyKey);
      }
      if ttl <= 0 {
        return Err(NonPositiveTtl);
      }
      if token.None? {
        return Err(NoToken);
      }
      if delivery.RequestLost? {
        return Err(Io);
      }
      var (s, ok) := SetNx(store, key, token.value, ttl);
      store := s;
      if delivery.ReplyLost? {
        return Err(Io);
      }
      var attempt := Refused;
      if ok {
        attempt := Granted(Handle(key, token.value, ttl, owner, now));
      }
      return Ok(attempt);
    }

    method Renew(lease: Handle, ttl: int, delivery: Delivery, now: int) returns (r: Result<Option<Handle>, Error>)
      modifies this
      ensures (store, r) == if hasClient then Renewed(old(store), lease, ttl, delivery, now)
                            else (old(store), Err(NoClient))
    {
      if !hasClient {
        return Err(NoClient);
      }
      if lease.key == "" || lease.token == "" {
        return Err(EmptyLease);
      }
      if ttl <= 0 {
        return Err(NonPositiveTtl);
      }
      if delivery.RequestLost? {
        return Err(Io);
      }
      var (s, n) := RenewScript(store, lease.key, lease.token, ttl / MILLISECOND_NS);
      store := s;
      if delivery.ReplyLost? {
        return Err(Io);
      }
      if n == 0 {
        return Ok(None);
      }
      var renewed := lease.(ttl := ttl);
      renewed := renewed.(acquiredAt := now);
      return Ok(Some(renewed));
    }

    method Release(lease: Handle, delivery: Delivery) returns (r: Result<(), Error>)
      modifies this
      ensures (store, r) == if hasClient then Released(old(store), lease, delivery) else (old(store), Err(NoClient))
    {
      if !hasClient {
        return Err(NoClient);
      }
      if lease.key == "" || lease.token == "" {
        return Ok(());
      }
      if delivery.RequestLost? {
        return Err(Io);
      }
      store := ReleaseScript(store, lease.key, lease.token).0;
      if delivery.ReplyLost? {
        return Err(Io);
      }
      return Ok(());
    }

    method CheckOwnership(lease: Handle, delivery: Delivery) returns (r: Result<bool, Error>)
      ensures r == if hasClient then Owned(store, lease, delivery) else Err(NoClient)
    {
      if !hasClient {
        return Err(NoClient);
      }
      if lease.key == "" || lease.token == "" {
        return Err(EmptyLease);
      }
      if !delivery.Delivered? {
        return Err(Io);
      }
      var held := Holder(store, lease.key);
      if held.None? {
        return Ok(false);
      }
      return Ok(held.value == lease.token);
    }
  }

  // ----- runs of many clients

  /** One atomic step. Renew, Release and Check name the acquire attempt whose lease
      they pass, by its position; an attempt that got no lease left an empty one. */
  datatype Step =
    | Acquire(key: string, token: string, ttl: int, delivery: Delivery)
    | Renew(id: nat, ttl: int, delivery: Delivery)
    | Release(id: nat, delivery: Delivery)
    | Check(id: nat, delivery: Delivery)
    | Tick(ms: nat)

  datatype Answer =
    | Attempted(attempt: Result<Attempt, Error>)
    | Renewal(renewal: Result<Option<Handle>, Error>)
    | Finished(done: Result<(), Error>)
    | Ownership(owned: Result<bool, Error>)
    | Silent

  datatype World = World(store: Store, leases: seq<Handle>, used: set<string>)

  function Start(clock: int): World {
    World(Store(map[], clock), [], {})
  }

  function LeaseOf(w: World, id: nat): Handle {
    if id < |w.leases| then w.leases[id] else NO_LEASE
  }

  function Exec(w: World, step: Step): (World, Answer) {
    match step
    case Tick(ms) => (w.(store := w.store.(clock := w.store.clock + ms)), Silent)
    case Acquire(key, token, ttl, delivery) =>
      var (s, r) := Acquired(w.store, key, ttl, "", Some(token), delivery, w.store.clock);
      var lease := if r.Ok? && r.value.Granted? then r.value.lease else NO_LEASE;
      (World(s, w.leases + [lease], w.used + {token}), Attempted(r))
    case Renew(id, ttl, delivery) =>
      var (s, r) := Renewed(w.store, LeaseOf(w, id), ttl, delivery, w.store.clock);
      (w.(store := s), Renewal(r))
    case Release(id, delivery) =>
      var (s, r) := Released(w.store, LeaseOf(w, id), delivery);
      (w.(store := s), Finished(r))
    case Check(id, delivery) => (w, Ownership(Owned(w.store, LeaseOf(w, id), delivery)))
  }

  function ExecAll(w: World, steps: seq<Step>): World
    decreases |steps|
  {
    if steps == [] then w else ExecAll(Exec(w, steps[0]).0, steps[1..])
  }

  function Answers(w: World, steps: seq<Step>): (answers: seq<Answer>)
    ensures |answers| == |steps|
    decreases |steps|
  {
    if steps == [] then [] else [Exec(w, steps[0]).1] + Answers(Exec(w, steps[0]).0, steps[1..])
  }

  /** Every acquire of the run brings a token nobody has used. */
  predicate FreshTokens(used: set<string>, steps: seq<Step>)
    decreases |steps|
  {
    steps == []
    || match steps[0]
       case Acquire(_, token, _, _) => token !in used && FreshTokens(used + {token}, steps[1..])
       case _ => FreshTokens(used, steps[1..])
  }

  /** Tokens on the server and in leases have been used, and no two leases share one. */
  predicate Inv(w: World) {
    && (forall key :: key in w.store.data ==> w.store.data[key].token in w.used)
    && (forall i :: 0 <= i < |w.leases| && !Blank(w.leases[i]) ==> w.leases[i].token in w.used)
    && (forall i, j :: 0 <= i < j < |w.leases| && !Blank(w.leases[i]) && !Blank(w.leases[j])
          ==> w.leases[i].token != w.leases[j].token)
  }

  lemma StepInv(w: World, step: Step)
    requires Inv(w) && FreshTokens(w.used, [step])
    ensures Inv(Exec(w, step).0)
  {
  }

  lemma FreshHead(used: set<string>, steps: seq<Step>)
    requires steps != [] && FreshTokens(used, steps)
    ensures FreshTokens(used, [steps[0]])
    ensures forall w: World :: w.used == used ==> FreshTokens(Exec(w, steps[0]).0.used, steps[1..])
  {
    assert [steps[0]][1..] == [];
  }

  lemma {:induction false} RunInv(w: World, steps: seq<Step>)
    requires Inv(w) && FreshTokens(w.used, steps)
    ensures Inv(ExecAll(w, steps))
    decreases |steps|
  {
    if steps != [] {
      FreshHead(w.used, steps);
      StepInv(w, steps[0]);
      RunInv(Exec(w, steps[0]).0, steps[1..]);
    }
  }

  lemma {:induction false} FreshSplits(used: set<string>, w: World, xs: seq<Step>, ys: seq<Step>)
    requires w.used == used && FreshTokens(used, xs + ys)
    ensures FreshTokens(used, xs) && FreshTokens(ExecAll(w, xs).used, ys)
    decreases |xs|
  {
    if xs == [] {
      assert xs + ys == ys;
    } else {
      assert (xs + ys)[0] == xs[0] && (xs + ys)[1..] == xs[1..] + ys;
      FreshHead(used, xs + ys);
      var w' := Exec(w, xs[0]).0;
      FreshSplits(w'.used, w', xs[1..], ys);
    }
  }

  // ----- a lease is stable

  predicate Holds(w: World, id: nat, deadline: int) {
    var t := LeaseOf(w, id);
    !Blank(t) && t.key in w.store.data && w.store.data[t.key] == Entry(t.token, deadline)
  }

  /** The lease's deadline as its holder's own renewals move it. */
  function Deadline(clock: int, id: nat, deadline: int, step: Step): int {
    if step.Renew? && step.id == id && step.ttl > 0 && !step.delivery.RequestLost?
    then clock + step.ttl / MILLISECOND_NS else deadline
  }

  /** Until the end of the run the server's clock has not reached the deadline when a
      step is taken, and the holder neither releases nor renews for under a millisecond. */
  predicate Undisturbed(clock: int, id: nat, deadline: int, steps: seq<Step>)
    decreases |steps|
  {
    steps == [] ||
    var step := steps[0];
    && clock < deadline
    && !(step.Release? && step.id == id && !step.delivery.RequestLost?)
    && !(step.Renew? && step.id == id && 0 < step.ttl < MILLISECOND_NS && !step.delivery.RequestLost?)
    && Undisturbed(if step.Tick? then clock + step.ms else clock, id, Deadline(clock, id, deadline, step), steps[1..])
  }

  /** No acquire of the holder's key succeeds, and the holder's own checks and renewals do. */
  predicate Respects(key: string, id: nat, step: Step, answer: Answer) {
    && (step.Acquire? && step.key == key ==> answer.Attempted? && !Wins(answer))
    && (step.Check? && step.id == id && step.delivery.Delivered? ==> answer == Ownership(Ok(true)))
    && (step.Renew? && step.id == id && step.ttl > 0 && step.delivery.Delivered? ==> Wins(answer))
  }

  /** The answer of an acquire or a renewal that succeeded. */
  predicate Wins(answer: Answer) {
    || (answer.Attempted? && answer.attempt.Ok? && answer.attempt.value.Granted?)
    || (answer.Renewal? && answer.renewal.Ok? && answer.renewal.value.Some?)
  }

  lemma HoldingStep(w: World, id: nat, deadline: int, step: Step)
    requires Inv(w) && Holds(w, id, deadline) && Undisturbed(w.store.clock, id, deadline, [step])
    ensures var (w', answer) := Exec(w, step);
      && Respects(LeaseOf(w, id).key, id, step, answer)
      && LeaseOf(w', id) == LeaseOf(w, id)
      && Holds(w', id, Deadline(w.store.clock, id, deadline, step))
      && w'.store.clock == if step.Tick? then w.store.clock + step.ms else w.store.clock
  {
    if (step.Renew? || step.Release?) && step.id != id && !Blank(LeaseOf(w, step.id)) {
      assert LeaseOf(w, step.id).token != LeaseOf(w, id).token;
    }
  }

  lemma {:induction false} HoldingRun(w: World, id: nat, deadline: int, steps: seq<Step>)
    requires Inv(w) && FreshTokens(w.used, steps)
    requires Holds(w, id, deadline) && Undisturbed(w.store.clock, id, deadline, steps)
    ensures forall i :: 0 <= i < |steps| ==> Respects(LeaseOf(w, id).key, id, steps[i], Answers(w, steps)[i])
    decreases |steps|
  {
    if steps != [] {
      hide Inv, Holds, Respects, LeaseOf;
      var step, w' := steps[0], Exec(w, steps[0]).0;
      FreshHead(w.used, steps);
      StepInv(w, step);
      assert Undisturbed(w.store.clock, id, deadline, [step]) by {
        assert [step][1..] == [];
      }
      HoldingStep(w, id, deadline, step);
      HoldingRun(w', id, Deadline(w.store.clock, id, deadline, step), steps[1..]);
      assert Answers(w, steps) == [Exec(w, step).1] + Answers(w', steps[1..]);
      forall i | 0 <= i < |steps|
        ensures Respects(LeaseOf(w, id).key, id, steps[i], Answers(w, steps)[i])
      {
        if i > 0 {
          assert steps[i] == steps[1..][i - 1];
        }
      }
    }
  }

  /** From a successful acquire or renewal on, in any interleaving with any number of
      other clients and whatever stale renewals and releases they send, no other
      acquire of the key succeeds and the holder's ownership checks answer true,
      until the lease's deadline or the holder's own release. */
  lemma LeaseIsStable(clock: int, before: seq<Step>, grant: Step, id: nat, after: seq<Step>)
    requires FreshTokens({}, before + ([grant] + after))
    requires var w := ExecAll(Start(clock), before);
      var ok := Exec(w, grant).1;
      || (grant.Acquire? && grant.token != "" && Wins(ok) && id == |w.leases|
          && Undisturbed(w.store.clock, id, w.store.clock + MaxInt(1, grant.ttl / MILLISECOND_NS), after))
      || (grant.Renew? && Wins(ok) && id == grant.id && grant.ttl >= MILLISECOND_NS
          && Undisturbed(w.store.clock, id, w.store.clock + grant.ttl / MILLISECOND_NS, after))
    ensures var w := Exec(ExecAll(Start(clock), before), grant).0;
      forall i :: 0 <= i < |after| ==> Respects(LeaseOf(w, id).key, id, after[i], Answers(w, after)[i])
  {
    var w := ExecAll(Start(clock), before);
    hide ExecAll, FreshTokens, Undisturbed, Respects, Answers;
    FreshSplits({}, Start(clock), before, [grant] + after);
    RunInv(Start(clock), before);
    Cons(grant, after);
    FreshHead(w.used, [grant] + after);
    StepInv(w, grant);
    var w' := Exec(w, grant).0;
    var lifetime := if grant.Acquire? then MaxInt(1, grant.ttl / MILLISECOND_NS) else grant.ttl / MILLISECOND_NS;
    HoldingRun(w', id, w.store.clock + lifetime, after);
  }

  // ----- what one operation does

  /** Every key but this one has the holder it had. */
  ghost predicate OthersKeep(s: Store, s': Store, key: string) {
    s'.clock == s.clock && forall k :: k != key ==> Holder(s', k) == Holder(s, k)
  }

  /** The first thing wrong with a call is its error, and without a fault in its arguments
      only the network makes one: an acquire then answers a lease for a free key, and a
      refusal for another. */
  lemma AcquireAnswers(s: Store, key: string, ttl: int, owner: string, token: Option<string>, delivery: Delivery,
                       now: int)
    ensures var (s', r) := Acquired(s, key, ttl, owner, token, delivery, now);
      var sound := key != "" && ttl > 0 && token.Some?;
      && (r == Err(EmptyKey) <==> key == "")
      && (r == Err(NonPositiveTtl) <==> key != "" && ttl <= 0)
      && (r == Err(NoToken) <==> key != "" && ttl > 0 && token.None?)
      && (r == Err(Io) <==> sound && !delivery.Delivered?)
      && (sound && delivery.Delivered? && Holder(s, key) == None ==>
            r == Ok(Granted(Handle(key, token.value, ttl, owner, now))))
      && (sound && delivery.Delivered? && Holder(s, key) != None ==> r == Ok(Refused))
      && (sound && !delivery.RequestLost? && Holder(s, key) == None ==>
            Holder(s', key) == token && OthersKeep(s, s', key))
      && (!sound || delivery.RequestLost? || Holder(s, key) != None ==> s' == s)
  {
  }

  lemma RenewAnswers(s: Store, lease: Handle, ttl: int, delivery: Delivery, now: int)
    ensures var (s', r) := Renewed(s, lease, ttl, delivery, now);
      var sound := lease.key != "" && lease.token != "" && ttl > 0;
      && (r == Err(EmptyLease) <==> lease.key == "" || lease.token == "")
      && (r == Err(NonPositiveTtl) <==> lease.key != "" && lease.token != "" && ttl <= 0)
      && (r == Err(Io) <==> sound && !delivery.Delivered?)
      && (sound && delivery.Delivered? && Holder(s, lease.key) == Some(lease.token) ==>
            r == Ok(Some(Handle(lease.key, lease.token, ttl, lease.owner, now))))
      && (sound && delivery.Delivered? && Holder(s, lease.key) != Some(lease.token) ==> r == Ok(None))
      && (sound && !delivery.RequestLost? ==> s' == Renewed(s, lease, ttl, Delivered, now).0)
      && (!sound || delivery.RequestLost? || Holder(s, lease.key) != Some(lease.token) ==> s' == s)
  {
  }

  lemma ReleaseAnswers(s: Store, lease: Handle, delivery: Delivery)
    ensures var (s', r) := Released(s, lease, delivery);
      r == if lease.key == "" || lease.token == "" || delivery.Delivered? then Ok(()) else Err(Io)
  {
  }

  lemma CheckAnswers(s: Store, lease: Handle, delivery: Delivery)
    ensures var r := Owned(s, lease, delivery);
      var sound := lease.key != "" && lease.token != "";
      && (r == Err(EmptyLease) <==> !sound)
      && (r == Err(Io) <==> sound && !delivery.Delivered?)
      && (sound && delivery.Delivered? ==> r == Ok(Holder(s, lease.key) == Some(lease.token)))
  {
  }

  /** A delivered acquire wins exactly when its arguments are valid and the key is free, and
      then it is the holder and its lease says so. An acquire whose answer is lost does the
      same to the store; one that loses or is never delivered does nothing. */
  lemma AcquireTakesFreeKeys(w: World, key: string, token: string, ttl: int, delivery: Delivery)
    ensures var (w', answer) := Exec(w, Acquire(key, token, ttl, delivery));
      var free := key != "" && ttl > 0 && Holder(w.store, key) == None;
      && (Wins(answer) <==> free && delivery.Delivered?)
      && (Wins(answer) ==> answer.attempt == Ok(Granted(Handle(key, token, ttl, "", w.store.clock))))
      && (delivery.Delivered? && key != "" && ttl > 0 && !free ==> answer.attempt == Ok(Refused))
      && (free && !delivery.RequestLost? ==> Holder(w'.store, key) == Some(token) && OthersKeep(w.store, w'.store, key))
      && (!free || delivery.RequestLost? ==> w'.store == w.store)
  {
  }

  /** An acquired key is held for its TTL, at least a millisecond, and free from then on. */
  lemma AcquiredKeyExpires(w: World, key: string, token: string, ttl: int, ms: nat)
    requires Wins(Exec(w, Acquire(key, token, ttl, Delivered)).1)
    ensures var w' := Exec(Exec(w, Acquire(key, token, ttl, Delivered)).0, Tick(ms)).0;
      && (ms < MaxInt(1, ttl / 1_000_000) ==> Holder(w'.store, key) == Some(token))
      && (ms >= MaxInt(1, ttl / 1_000_000) ==> Holder(w'.store, key) == None)
  {
  }

  /** A renewal succeeds exactly for the holder and a positive TTL, and answers the lease
      with the new TTL and time. It leaves the key with the holder exactly when the TTL was
      at least a millisecond, and then until the TTL has passed; a shorter one removes the
      key and still reports success. */
  lemma RenewalKeepsTheKey(w: World, id: nat, ttl: int, ms: nat)
    ensures var t := LeaseOf(w, id);
      var (w', answer) := Exec(w, Renew(id, ttl, Delivered));
      && (Wins(answer) <==> !Blank(t) && ttl > 0 && Holder(w.store, t.key) == Some(t.token))
      && (Wins(answer) ==>
            && answer.renewal == Ok(Some(Handle(t.key, t.token, ttl, t.owner, w.store.clock)))
            && (Holder(w'.store, t.key) == Some(t.token) <==> ttl >= 1_000_000)
            && (Holder(Exec(w', Tick(ms)).0.store, t.key)
                == if ms < ttl / 1_000_000 then Some(t.token) else None)
            && OthersKeep(w.store, w'.store, t.key))
      && (!Wins(answer) ==> w' == w)
      && (!Wins(answer) && !Blank(t) && ttl > 0 ==> answer.renewal == Ok(None))
  {
  }

  /** A release that reaches the server frees the key of a lease that holds it, whether or
      not its answer arrives, and touches no other key; any other release changes nothing. */
  lemma ReleaseFreesTheKey(w: World, id: nat, delivery: Delivery)
    ensures var t := LeaseOf(w, id);
      var (w', answer) := Exec(w, Release(id, delivery));
      && (!Blank(t) && Holder(w.store, t.key) == Some(t.token) && !delivery.RequestLost? ==>
            Holder(w'.store, t.key) == None && OthersKeep(w.store, w'.store, t.key))
      && (Blank(t) || Holder(w.store, t.key) != Some(t.token) || delivery.RequestLost? ==> w' == w)
      && (answer == Finished(Ok(())) <==> Blank(t) || delivery.Delivered?)
  {
  }

  /** A check answers whether the lease's token is the live key's, and changes nothing. */
  lemma CheckTellsTheHolder(w: World, id: nat, delivery: Delivery)
    ensures var t := LeaseOf(w, id);
      var (w', answer) := Exec(w, Check(id, delivery));
      && w' == w
      && (answer == Ownership(Ok(true))
          <==> !Blank(t) && delivery.Delivered? && Holder(w.store, t.key) == Some(t.token))
      && (answer == Ownership(Ok(false))
          <==> !Blank(t) && delivery.Delivered? && Holder(w.store, t.key) != Some(t.token))
  {
  }

  /** A lease that is released makes way: in every world, once its holder has released a
      key, the next acquire of it wins. */
  lemma ReleasedKeyIsGranted(w: World, id: nat, token: string, ttl: int)
    requires !Blank(LeaseOf(w, id)) && Holder(w.store, LeaseOf(w, id).key) == Some(LeaseOf(w, id).token) && ttl > 0
    ensures var key := LeaseOf(w, id).key;
      Wins(Exec(Exec(w, Release(id, Delivered)).0, Acquire(key, token, ttl, Delivered)).1)
  {
    ReleaseFreesTheKey(w, id, Delivered);
    AcquireTakesFreeKeys(Exec(w, Release(id, Delivered)).0, LeaseOf(w, id).key, token, ttl, Delivered);
  }

  /** In a run of two steps a lease is granted and renewed, and its key is gone. */
  lemma ShortRenewalLosesTheKey(clock: int, key: string, token: string, ttl: int, short: int)
    requires key != "" && token != "" && ttl > 0 && 0 < short < 1_000_000
    ensures var steps := [Acquire(key, token, ttl, Delivered), Renew(0, short, Delivered)];
      && FreshTokens({}, steps)
      && Wins(Answers(Start(clock), steps)[0]) && Wins(Answers(Start(clock), steps)[1])
      && Holder(ExecAll(Start(clock), steps).store, key) == None
  {
    var first, second := Acquire(key, token, ttl, Delivered), Renew(0, short, Delivered);
    assert [first, second][1..] == [second] && [second][1..] == [];
    var w := Exec(Start(clock), first).0;
    assert Holder(w.store, key) == Some(token);
    assert Answers(Start(clock), [first, second]) == [Exec(Start(clock), first).1] + Answers(w, [second]);
    assert Answers(w, [second]) == [Exec(w, second).1] + Answers(Exec(w, second).0, []);
    RenewalKeepsTheKey(w, 0, short, 0);
    assert ExecAll(Start(clock), [first, second]) == ExecAll(w, [second]) == Exec(w, second).0;
  }

  // ----- a lost lease stays lost

  predicate Lost(w: World, id: nat) {
    var t := LeaseOf(w, id);
    !Blank(t) && Holder(w.store, t.key) != Some(t.token)
  }

  /** The lease's renewals and ownership checks fail and its release changes nothing. */
  predicate Powerless(id: nat, w: World, step: Step) {
    var (w', answer) := Exec(w, step);
    && (step.Renew? && step.id == id ==> !Wins(answer) && w' == w)
    && (step.Check? && step.id == id ==> answer != Ownership(Ok(true)))
    && (step.Release? && step.id == id ==> w' == w)
  }

  lemma LostStep(w: World, id: nat, step: Step)
    requires Inv(w) && FreshTokens(w.used, [step]) && Lost(w, id)
    ensures Powerless(id, w, step) && Lost(Exec(w, step).0, id)
  {
    if (step.Renew? || step.Release?) && step.id != id && !Blank(LeaseOf(w, step.id)) {
      assert LeaseOf(w, step.id).token != LeaseOf(w, id).token;
    }
    if step.Acquire? {
      assert LeaseOf(w, id).token in w.used;
    }
  }

  lemma {:induction false} LostRun(w: World, id: nat, steps: seq<Step>)
    requires Inv(w) && FreshTokens(w.used, steps) && Lost(w, id)
    ensures Lost(ExecAll(w, steps), id)
    decreases |steps|
  {
    if steps != [] {
      FreshHead(w.used, steps);
      StepInv(w, steps[0]);
      LostStep(w, id, steps[0]);
      LostRun(Exec(w, steps[0]).0, id, steps[1..]);
    }
  }

  /** Once a lease's token is no longer under its key, no later step of any run renews
      it, finds it owned, or lets its release change the store. */
  lemma LostLeaseStaysLost(clock: int, before: seq<Step>, id: nat, between: seq<Step>, step: Step)
    requires FreshTokens({}, before + (between + [step]))
    requires Lost(ExecAll(Start(clock), before), id)
    ensures Powerless(id, ExecAll(ExecAll(Start(clock), before), between), step)
  {
    var w := ExecAll(Start(clock), before);
    FreshSplits({}, Start(clock), before, between + [step]);
    RunInv(Start(clock), before);
    FreshSplits(w.used, w, between, [step]);
    RunInv(w, between);
    LostRun(w, id, between);
    LostStep(ExecAll(w, between), id, step);
  }
}
