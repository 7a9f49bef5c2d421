/** The in-process limiter: one token bucket per key in a table that is swept by idle
    time and by size. Instants are nanoseconds; 0 is Go's zero time. */
module LocalLimiter {
  import opened Wrappers
  import opened RateMath
  import opened RateDecision

  const KEYED_LIMITER_TTL := 600 * SECOND_NS
  const KEYED_CLEANUP_INTERVAL := 60 * SECOND_NS
  const KEYED_MAX_ENTRIES := 10000

  // ----- the bucket of golang.org/x/time/rate, taken abstractly

  datatype RateBucket = RateBucket(tokens: real, last: nat)

  function Fresh(p: Policy): RateBucket {
    RateBucket(p.burst as real, 0)
  }

  function Elapsed(since: nat, now: nat): real {
    (if now < since then 0 else now - since) as real / 1_000_000_000.0
  }

  /** Tokens on hand at an instant. */
  function Held(p: Policy, b: RateBucket, now: nat): real {
    Refill(p, b.tokens, Elapsed(b.last, now))
  }

  /** One decision on a bucket: an admission takes a token, a denial changes nothing
      and reports the wait for the missing part of a token. */
  function Verdict(p: Policy, b: RateBucket, now: nat): (RateBucket, Decision)
    requires p.Valid()
  {
    var held := Held(p, b, now);
    if held >= 1.0 then (RateBucket(held - 1.0, now), AllowedDecision(p, Allowed))
    else
      var delay := ((1.0 - held) / p.rate * 1_000_000_000.0).Floor;
      (b, LimitedDecision(p, delay, Ceil(delay as real / 1_000_000_000.0)))
  }

  /** The decisions of one bucket that nothing ever sweeps. */
  function Solo(p: Policy, b: RateBucket, times: seq<nat>): (ds: seq<Decision>)
    requires p.Valid()
    ensures |ds| == |times|
    decreases |times|
  {
    if times == [] then []
    else
      var (b', d) := Verdict(p, b, times[0]);
      [d] + Solo(p, b', times[1..])
  }

  // ----- the table

  datatype Slot = Slot(bucket: RateBucket, lastSeen: nat)

  datatype Table = Table(entries: map<string, Slot>, lastCleanup: nat)

  datatype Call = Call(key: string, now: nat)

  function SlotKey(key: string): string {
    if key == "" then "anonymous" else key
  }

  predicate Due(s: Table, now: nat) {
    now - s.lastCleanup >= KEYED_CLEANUP_INTERVAL
  }

  function Live(entries: map<string, Slot>, now: nat): map<string, Slot> {
    map k | k in entries && now - entries[k].lastSeen <= KEYED_LIMITER_TTL :: entries[k]
  }

  /** What may be left when the table has been swept at an instant; which of too many
      live entries go is the runtime's choice. */
  ghost predicate Leaves(s: Table, now: nat, kept: map<string, Slot>) {
    if !Due(s, now) then kept == s.entries
    else
      var live := Live(s.entries, now);
      && (forall k :: k in kept ==> k in live && kept[k] == live[k])
      && |kept| == (if |live| <= KEYED_MAX_ENTRIES then |live| else KEYED_MAX_ENTRIES)
  }

  function Touch(p: Policy, kept: map<string, Slot>, s: Table, c: Call): (Table, Decision)
    requires p.Valid()
  {
    var slot := SlotKey(c.key);
    var (b, d) := Verdict(p, if slot in kept then kept[slot].bucket else Fresh(p), c.now);
    (Table(kept[slot := Slot(b, c.now)], if Due(s, c.now) then c.now else s.lastCleanup), d)
  }

  ghost predicate Steps(p: Policy, s: Table, c: Call, s': Table, d: Decision)
    requires p.Valid()
  {
    exists kept :: Leaves(s, c.now, kept) && (s', d) == Touch(p, kept, s, c)
  }

  // ----- the imperative form

  class Limiter {
    const policy: Policy
    const keyed: bool
    var global: RateBucket
    var table: Table

    constructor (policy: Policy, keyed: bool)
      ensures this.policy == policy && this.keyed == keyed
      ensures global == Fresh(policy) && table == Table(map[], 0)
    {
      this.policy := policy;
      this.keyed := keyed;
      global := Fresh(policy);
      table := Table(map[], 0);
    }

    /** The two sweeps of limiterForKey. */
    method Sweep(now: nat)
      requires Due(table, now)
      modifies this`table
      ensures Leaves(old(table), now, table.entries) && table.lastCleanup == now
    {
      ghost var s := table;
      ghost var live := Live(table.entries, now);
      var entries := table.entries;
      var todo := entries.Keys;
      while todo != {}
        invariant todo <= entries.Keys && live.Keys <= entries.Keys <= s.entries.Keys
        invariant forall k :: k in entries ==> entries[k] == s.entries[k] && (k in todo || k in live)
        decreases |todo|
      {
        var k :| k in todo;
        todo := todo - {k};
        if now - entries[k].lastSeen > KEYED_LIMITER_TTL {
          entries := entries - {k};
        }
      }
      assert entries.Keys == live.Keys;
      assert entries == live;
      if |entries| > KEYED_MAX_ENTRIES {
        while |entries| > KEYED_MAX_ENTRIES
          invariant |entries| >= KEYED_MAX_ENTRIES
          invariant forall k :: k in entries ==> k in live && entries[k] == live[k]
        {
          assert entries.Keys != {};
          var k :| k in entries.Keys;
          entries := RemoveOne(entries, k);
        }
      }
      table := Table(entries, now);
    }

    method Decide(key: string, now: nat) returns (d: Decision)
      modifies this
      ensures !policy.Valid() ==>
        d == LimitedDecision(policy, SECOND_NS, 1) && table == old(table) && global == old(global)
      ensures policy.Valid() && keyed ==> Steps(policy, old(table), Call(key, now), table, d) && global == old(global)
      ensures policy.Valid() && !keyed ==> (global, d) == Verdict(policy, old(global), now) && table == old(table)
    {
      if !policy.Valid() {
        return LimitedDecision(policy, SECOND_NS, 1);
      }
      if !keyed {
        var (b, answer) := Verdict(policy, global, now);
        global := b;
        return answer;
      }
      if Due(table, now) {
        Sweep(now);
      }
      var slot := if key == "" then "anonymous" else key;
      ghost var kept := table.entries;
      var entries := table.entries;
      if slot !in entries {
        entries := entries[slot := Slot(Fresh(policy), now)];
      }
      entries := entries[slot := entries[slot].(lastSeen := now)];
      var (b, answer) := Verdict(policy, entries[slot].bucket, now);
      entries := entries[slot := entries[slot].(bucket := b)];
      assert entries == kept[slot := Slot(b, now)];
      table := table.(entries := entries);
      assert (table, answer) == Touch(policy, kept, old(table), Call(key, now));
      return answer;
    }
  }

  /** Decide on a limiter that may be nil. */
  method DecideOn(limiter: Limiter?, key: string, now: nat) returns (d: Decision)
    modifies limiter
    ensures limiter == null ==> d == LimitedDecision(Policy(0.0, 0), SECOND_NS, 1)
    ensures limiter != null ==>
      && (!limiter.policy.Valid() ==> d == LimitedDecision(limiter.policy, SECOND_NS, 1))
      && (limiter.policy.Valid() && limiter.keyed ==>
            Steps(limiter.policy, old(limiter.table), Call(key, now), limiter.table, d))
      && (limiter.policy.Valid() && !limiter.keyed ==>
            (limiter.global, d) == Verdict(limiter.policy, old(limiter.global), now))
  {
    if limiter == null {
      return LimitedDecision(Policy(0.0, 0), SECOND_NS, 1);
    }
    d := limiter.Decide(key, now);
  }

  function RemoveOne<T>(m: map<string, T>, k: string): (r: map<string, T>)
    requires k in m
    ensures r == m - {k} && |r| == |m| - 1
  {
    var r := m - {k};
    assert r.Keys == m.Keys - {k};
    r
  }

  /** Keys have slots of their own, except that no key is the key "anonymous". */
  lemma SharesSlot(p: Policy, kept: map<string, Slot>, s: Table, k: string, l: string, now: nat)
    requires p.Valid()
    ensures SlotKey(k) == SlotKey(l) <==> k == l || (k == "" && l == "anonymous") || (k == "anonymous" && l == "")
    ensures Touch(p, kept, s, Call("", now)) == Touch(p, kept, s, Call("anonymous", now))
  {
  }

  // ----- runs

  ghost predicate IsRun(p: Policy, states: seq<Table>, calls: seq<Call>, ds: seq<Decision>)
    requires p.Valid()
  {
    && |states| == |calls| + 1 && |ds| == |calls|
    && forall i :: 0 <= i < |calls| ==> Steps(p, states[i], calls[i], states[i + 1], ds[i])
  }

  predicate InOrder(calls: seq<Call>) {
    forall i, j :: 0 <= i < j < |calls| ==> calls[i].now <= calls[j].now
  }

  /** No sweep of the run finds more live entries than the table may keep. */
  predicate NeverCrowded(states: seq<Table>, calls: seq<Call>)
    requires |states| == |calls| + 1
  {
    forall i :: 0 <= i < |calls| && Due(states[i], calls[i].now)
      ==> |Live(states[i].entries, calls[i].now)| <= KEYED_MAX_ENTRIES
  }

  lemma UncrowdedSweepKeepsLive(s: Table, now: nat, kept: map<string, Slot>)
    requires Leaves(s, now, kept) && Due(s, now) && |Live(s.entries, now)| <= KEYED_MAX_ENTRIES
    ensures kept == Live(s.entries, now)
  {
    var live := Live(s.entries, now);
    SubsetOfSameSize(kept.Keys, live.Keys);
  }

  lemma SubsetOfSameSize(a: set<string>, b: set<string>)
    requires a <= b && |a| == |b|
    ensures a == b
  {
    assert |b - a| == |b| - |a|;
  }

  /** A sweep leaves at most ten thousand entries and drops no live one while it need not:
      with the touched one there are then at most one more. */
  lemma SweepBoundsTheTable(p: Policy, s: Table, c: Call, s': Table, d: Decision)
    requires p.Valid() && Steps(p, s, c, s', d) && Due(s, c.now)
    ensures |s'.entries| <= 10_001
    ensures |Live(s.entries, c.now)| >= 10_000 ==> |s'.entries| >= 10_000
    ensures |Live(s.entries, c.now)| <= 10_000 ==>
      s'.entries.Keys == Live(s.entries, c.now).Keys + {SlotKey(c.key)}
  {
    var kept: map<string, Slot> :| Leaves(s, c.now, kept) && (s', d) == Touch(p, kept, s, c);
    assert s'.entries.Keys == kept.Keys + {SlotKey(c.key)};
    assert |kept.Keys + {SlotKey(c.key)}| <= |kept.Keys| + 1;
    assert kept.Keys <= s'.entries.Keys;
    SubsetIsSmaller(kept.Keys, s'.entries.Keys);
    if |Live(s.entries, c.now)| <= KEYED_MAX_ENTRIES {
      UncrowdedSweepKeepsLive(s, c.now, kept);
    }
  }

  /** The table is swept by the first call that comes a minute or more after the last sweep,
      and otherwise loses nothing. */
  lemma SweepsEveryMinute(p: Policy, s: Table, c: Call, s': Table, d: Decision)
    requires p.Valid() && Steps(p, s, c, s', d)
    ensures s'.lastCleanup == if c.now - s.lastCleanup >= 60 * SECOND_NS then c.now else s.lastCleanup
    ensures c.now - s.lastCleanup < 60 * SECOND_NS ==>
      forall k :: k in s.entries ==> k in s'.entries && (k != SlotKey(c.key) ==> s'.entries[k] == s.entries[k])
    ensures SlotKey(c.key) in s'.entries && s'.entries[SlotKey(c.key)].lastSeen == c.now
    ensures forall k :: k in s'.entries && k != SlotKey(c.key) ==>
      k in s.entries && s'.entries[k] == s.entries[k]
      && (c.now - s.lastCleanup >= 60 * SECOND_NS ==> c.now - s.entries[k].lastSeen <= 600 * SECOND_NS)
  {
    hide Verdict;
  }

  lemma SubsetIsSmaller(a: set<string>, b: set<string>)
    requires a <= b
    ensures |a| <= |b|
  {
    assert |b| == |a| + |b - a|;
  }

  // ----- every surviving entry is recent

  predicate Fits(s: Table, now: nat) {
    && s.lastCleanup <= now && (s.entries == map[] || now - s.lastCleanup < KEYED_CLEANUP_INTERVAL)
    && forall k :: k in s.entries ==> s.lastCleanup - s.entries[k].lastSeen <= KEYED_LIMITER_TTL
  }

  lemma StepFits(p: Policy, s: Table, before: nat, c: Call, s': Table, d: Decision)
    requires p.Valid() && Fits(s, before) && before <= c.now && Steps(p, s, c, s', d)
    ensures Fits(s', c.now)
  {
  }

  lemma {:induction false} RunFits(p: Policy, states: seq<Table>, calls: seq<Call>, ds: seq<Decision>, n: nat)
    requires p.Valid() && IsRun(p, states, calls, ds) && InOrder(calls) && states[0] == Table(map[], 0)
    requires n < |calls|
    ensures Fits(states[n + 1], calls[n].now)
  {
    if n == 0 {
      StepFits(p, states[0], 0, calls[0], states[1], ds[0]);
    } else {
      RunFits(p, states, calls, ds, n - 1);
      StepFits(p, states[n], calls[n - 1].now, calls[n], states[n + 1], ds[n]);
    }
  }

  /** After every call of every run, crowded or not, every entry in the table was seen
      less than eleven minutes ago. */
  lemma SurvivorsAreRecent(p: Policy, states: seq<Table>, calls: seq<Call>, ds: seq<Decision>, n: nat, key: string)
    requires p.Valid() && IsRun(p, states, calls, ds) && InOrder(calls) && states[0] == Table(map[], 0)
    requires n < |calls| && key in states[n + 1].entries
    ensures calls[n].now - states[n + 1].entries[key].lastSeen < 660 * SECOND_NS
  {
    RunFits(p, states, calls, ds, n);
  }

  // ----- one independent bucket per key

  /** A bucket empty at the moment a key was last seen is full again when the key has
      just become idle enough to be swept, one nanosecond over ten minutes later. */
  predicate FullWhenSwept(p: Policy) {
    p.burst as real * 1_000_000_000.0 <= p.rate * 600_000_000_001.0
  }

  /** The instants of the calls that share a slot. */
  function MyTimes(calls: seq<Call>, slot: string): seq<nat> {
    if calls == [] then []
    else (if SlotKey(calls[0].key) == slot then [calls[0].now] else []) + MyTimes(calls[1..], slot)
  }

  /** The decisions on the calls that share a slot. */
  function MyDecisions(calls: seq<Call>, ds: seq<Decision>, slot: string): seq<Decision>
    requires |calls| == |ds|
  {
    if calls == [] then []
    else (if SlotKey(calls[0].key) == slot then [ds[0]] else []) + MyDecisions(calls[1..], ds[1..], slot)
  }

  predicate Sound(p: Policy, b: RateBucket) {
    0.0 <= b.tokens <= p.burst as real
  }

  /** The table's view of a slot and the bucket nothing sweeps agree from an instant on. */
  predicate Agrees(p: Policy, s: Table, slot: string, alone: RateBucket, t: nat) {
    && Sound(p, alone)
    && if slot in s.entries
       then s.entries[slot].bucket == alone && alone.last <= s.entries[slot].lastSeen <= t
       else alone.last <= t && Held(p, alone, t) == p.burst as real
  }

  lemma StaysFull(p: Policy, b: RateBucket, t: nat, u: nat)
    requires p.Valid() && b.last <= t <= u && Held(p, b, t) == p.burst as real
    ensures Held(p, b, u) == p.burst as real
  {
    RefillComposes(p, b.tokens, Elapsed(b.last, t), Elapsed(t, u));
    assert Elapsed(b.last, u) == Elapsed(b.last, t) + Elapsed(t, u);
    assert Elapsed(t, u) * p.rate >= 0.0;
  }

  lemma IdleIsFull(p: Policy, b: RateBucket, now: nat)
    requires p.Valid() && FullWhenSwept(p) && Sound(p, b) && now - b.last > KEYED_LIMITER_TTL
    ensures Held(p, b, now) == p.burst as real
  {
    var idle := 600_000_000_001.0;
    assert idle == (KEYED_LIMITER_TTL + 1) as real;
    var gone := (now - b.last) as real;
    assert gone * p.rate >= idle * p.rate;
    assert Elapsed(b.last, now) * p.rate == gone * p.rate / 1_000_000_000.0;
  }

  lemma SweepAgrees(p: Policy, s: Table, slot: string, alone: RateBucket, t: nat, now: nat, kept: map<string, Slot>)
    requires p.Valid() && FullWhenSwept(p) && Agrees(p, s, slot, alone, t) && t <= now
    requires kept == if Due(s, now) then Live(s.entries, now) else s.entries
    ensures Agrees(p, s.(entries := kept), slot, alone, now)
  {
    if slot !in s.entries {
      StaysFull(p, alone, t, now);
    } else if slot !in kept {
      IdleIsFull(p, alone, now);
    }
  }

  lemma VerdictSound(p: Policy, b: RateBucket, now: nat)
    requires p.Valid() && Sound(p, b)
    ensures Sound(p, Verdict(p, b, now).0)
    ensures b.last <= now ==> Verdict(p, b, now).0.last <= now
  {
    RefillBounds(p, b.tokens, Elapsed(b.last, now));
  }

  lemma FullVerdict(p: Policy, b: RateBucket, now: nat)
    requires p.Valid() && Held(p, b, now) == p.burst as real
    ensures Verdict(p, b, now) == Verdict(p, Fresh(p), now)
  {
    assert Elapsed(0, now) * p.rate >= 0.0;
    assert Held(p, Fresh(p), now) == p.burst as real;
  }

  lemma CallAgrees(p: Policy, s: Table, slot: string, alone: RateBucket, t: nat, c: Call, s': Table, d: Decision)
    requires p.Valid() && FullWhenSwept(p) && Agrees(p, s, slot, alone, t) && t <= c.now && Steps(p, s, c, s', d)
    requires Due(s, c.now) ==> |Live(s.entries, c.now)| <= KEYED_MAX_ENTRIES
    ensures var (alone', d') := Verdict(p, alone, c.now);
      if SlotKey(c.key) == slot then d == d' && Agrees(p, s', slot, alone', c.now)
      else Agrees(p, s', slot, alone, c.now)
  {
    var kept :| Leaves(s, c.now, kept) && (s', d) == Touch(p, kept, s, c);
    if Due(s, c.now) {
      UncrowdedSweepKeepsLive(s, c.now, kept);
    }
    hide Held, FullWhenSwept, Live;
    SweepAgrees(p, s, slot, alone, t, c.now, kept);
    VerdictSound(p, alone, c.now);
    if slot !in kept {
      FullVerdict(p, alone, c.now);
    }
  }

  lemma {:induction false} RunAgrees(p: Policy, states: seq<Table>, calls: seq<Call>, ds: seq<Decision>,
                                     slot: string, alone: RateBucket, t: nat)
    requires p.Valid() && FullWhenSwept(p) && IsRun(p, states, calls, ds) && InOrder(calls)
    requires NeverCrowded(states, calls) && Agrees(p, states[0], slot, alone, t)
    requires calls != [] ==> t <= calls[0].now
    ensures MyDecisions(calls, ds, slot) == Solo(p, alone, MyTimes(calls, slot))
    decreases |calls|
  {
    if calls != [] {
      hide Steps, Verdict, Agrees, FullWhenSwept, Live, Due, InOrder, NeverCrowded, Held;
      var c, rest := calls[0], MyTimes(calls[1..], slot);
      RunSplitsOff(p, states, calls, ds);
      CallAgrees(p, states[0], slot, alone, t, c, states[1], ds[0]);
      if SlotKey(c.key) == slot {
        RunAgrees(p, states[1..], calls[1..], ds[1..], slot, Verdict(p, alone, c.now).0, c.now);
        assert MyTimes(calls, slot) == [c.now] + rest && ([c.now] + rest)[1..] == rest;
      } else {
        RunAgrees(p, states[1..], calls[1..], ds[1..], slot, alone, c.now);
        assert MyTimes(calls, slot) == rest;
      }
    }
  }

  lemma RunSplitsOff(p: Policy, states: seq<Table>, calls: seq<Call>, ds: seq<Decision>)
    requires p.Valid() && IsRun(p, states, calls, ds) && InOrder(calls) && NeverCrowded(states, calls) && calls != []
    ensures Steps(p, states[0], calls[0], states[1], ds[0])
    ensures Due(states[0], calls[0].now) ==> |Live(states[0].entries, calls[0].now)| <= KEYED_MAX_ENTRIES
    ensures IsRun(p, states[1..], calls[1..], ds[1..]) && InOrder(calls[1..]) && NeverCrowded(states[1..], calls[1..])
    ensures |calls| > 1 ==> calls[0].now <= calls[1].now
  {
    hide Steps, Due, Live;
    assert Steps(p, states[0], calls[0], states[0 + 1], ds[0]);
    forall i | 0 <= i < |calls| - 1
      ensures Steps(p, states[1..][i], calls[1..][i], states[1..][i + 1], ds[1..][i])
      ensures Due(states[1..][i], calls[1..][i].now)
        ==> |Live(states[1..][i].entries, calls[1..][i].now)| <= KEYED_MAX_ENTRIES
    {
      assert Steps(p, states[i + 1], calls[i + 1], states[i + 1 + 1], ds[i + 1]);
    }
  }

  predicate NoEarlier(calls: seq<Call>, start: nat) {
    forall i :: 0 <= i < |calls| ==> start <= calls[i].now
  }

  /** If a run from an empty table, no call of which comes before start, is in order and
      uncrowded, the decisions for a key are those of a bucket of its own. */
  ghost predicate IndependentIn(p: Policy, start: nat, states: seq<Table>, calls: seq<Call>, ds: seq<Decision>,
                                slot: string)
    requires p.Valid()
  {
    && IsRun(p, states, calls, ds) && states[0] == Table(map[], 0)
    && InOrder(calls) && NoEarlier(calls, start) && NeverCrowded(states, calls)
    ==> MyDecisions(calls, ds, slot) == Solo(p, Fresh(p), MyTimes(calls, slot))
  }

  ghost predicate Independent(p: Policy, start: nat)
    requires p.Valid()
  {
    forall states, calls, ds, slot :: IndependentIn(p, start, states, calls, ds, slot)
  }

  lemma FullWhenSweptSuffices(p: Policy, start: nat)
    requires p.Valid() && FullWhenSwept(p)
    ensures Independent(p, start)
  {
    forall states, calls, ds, slot ensures IndependentIn(p, start, states, calls, ds, slot) {
      if IsRun(p, states, calls, ds) && InOrder(calls) && states[0] == Table(map[], 0) && NeverCrowded(states, calls) {
        assert Held(p, Fresh(p), 0) == p.burst as real;
        RunAgrees(p, states, calls, ds, slot, Fresh(p), 0);
      }
    }
  }

  // ----- the premise cannot be weakened

  /** One key spends its burst at an instant and asks for it again when it has just
      become idle enough to be swept. */
  function Asks(n: nat, start: nat): (calls: seq<Call>)
    ensures |calls| == 2 * n
    ensures forall i :: 0 <= i < 2 * n ==>
      calls[i] == Call("a", if i < n then start else start + KEYED_LIMITER_TTL + 1)
  {
    seq(2 * n, i => Call("a", if i < n then start else start + KEYED_LIMITER_TTL + 1))
  }

  function StateAfter(n: nat, start: nat, i: nat): Table
    requires i <= 2 * n
  {
    var t := start + KEYED_LIMITER_TTL + 1;
    if i == 0 then Table(map[], 0)
    else if i <= n then Table(map["a" := Slot(RateBucket((n - i) as real, start), start)], start)
    else Table(map["a" := Slot(RateBucket((2 * n - i) as real, t), t)], t)
  }

  lemma FewEntries(n: nat, start: nat, i: nat)
    requires i <= 2 * n
    ensures |StateAfter(n, start, i).entries| <= 1
  {
  }

  lemma EmptyAtFirst(n: nat, start: nat)
    ensures StateAfter(n, start, 0) == Table(map[], 0)
  {
  }

  lemma LiveIsSmaller(entries: map<string, Slot>, now: nat)
    ensures |Live(entries, now)| <= |entries|
  {
    var live := Live(entries, now);
    assert live.Keys <= entries.Keys;
    assert |entries.Keys| == |live.Keys| + |entries.Keys - live.Keys|;
  }

  lemma TakesOne(p: Policy, k: nat, now: nat)
    requires p.Valid() && 0 < k <= p.burst
    ensures Verdict(p, RateBucket(k as real, now), now)
         == (RateBucket((k - 1) as real, now), AllowedDecision(p, Allowed))
    ensures k == p.burst ==> Verdict(p, Fresh(p), now) == Verdict(p, RateBucket(k as real, now), now)
  {
    assert Elapsed(now, now) * p.rate == 0.0;
    FullVerdict(p, RateBucket(p.burst as real, now), now);
  }

  lemma AskStep(p: Policy, start: nat, i: nat)
    requires p.Valid() && start >= KEYED_CLEANUP_INTERVAL && i < 2 * p.burst
    ensures Steps(p, StateAfter(p.burst, start, i), Asks(p.burst, start)[i], StateAfter(p.burst, start, i + 1),
                  AllowedDecision(p, Allowed))
  {
    var n := p.burst;
    var s, c, s' := StateAfter(n, start, i), Asks(n, start)[i], StateAfter(n, start, i + 1);
    var kept: map<string, Slot> := if i == 0 || i == n then map[] else s.entries;
    SweptWhenDue(n, start, i);
    TakesOne(p, if i < n then n - i else 2 * n - i, c.now);
    assert SlotKey("a") == "a";
    var b := if "a" in kept then kept["a"].bucket else Fresh(p);
    hide Leaves, Live, Verdict, Fresh, SlotKey, Asks, AllowedDecision;
    assert s'.entries == kept["a" := s'.entries["a"]];
    assert (s', AllowedDecision(p, Allowed)) == Touch(p, kept, s, c);
  }

  lemma SweptWhenDue(n: nat, start: nat, i: nat)
    requires start >= KEYED_CLEANUP_INTERVAL && i < 2 * n
    ensures var (s, now) := (StateAfter(n, start, i), Asks(n, start)[i].now);
      && (Due(s, now) <==> i == 0 || i == n)
      && Leaves(s, now, if i == 0 || i == n then map[] else s.entries)
  {
    var s, now := StateAfter(n, start, i), Asks(n, start)[i].now;
    if i == 0 || i == n {
      assert Live(s.entries, now) == map[];
    }
  }

  lemma {:induction false} OneSlot(calls: seq<Call>, ds: seq<Decision>)
    requires |calls| == |ds| && forall c :: c in calls ==> c.key == "a"
    ensures MyDecisions(calls, ds, "a") == ds && |MyTimes(calls, "a")| == |calls|
    ensures forall i :: 0 <= i < |calls| ==> MyTimes(calls, "a")[i] == calls[i].now
  {
    if calls != [] {
      OneSlot(calls[1..], ds[1..]);
    }
  }

  lemma SpendsOne(p: Policy, b: RateBucket, now: nat)
    requires p.Valid() && Verdict(p, b, now).1.allowed
    ensures Held(p, b, now) >= 1.0 && Held(p, Verdict(p, b, now).0, now) == Held(p, b, now) - 1.0
  {
    assert Elapsed(now, now) * p.rate == 0.0;
  }

  lemma AllAllowed(p: Policy, b: RateBucket, times: seq<nat>)
    requires p.Valid() && times != []
    requires forall d :: d in Solo(p, b, times) ==> d.allowed
    ensures var (b', d) := Verdict(p, b, times[0]);
      d.allowed && forall e :: e in Solo(p, b', times[1..]) ==> e.allowed
  {
    hide Verdict;
    var (b', d) := Verdict(p, b, times[0]);
    var ds := Solo(p, b, times);
    assert ds == [d] + Solo(p, b', times[1..]) && ds[0] in ds;
  }

  lemma {:induction false} AdmittedAtOnce(p: Policy, b: RateBucket, now: nat, times: seq<nat>)
    requires p.Valid() && times != [] && forall t :: t in times ==> t == now
    requires forall d :: d in Solo(p, b, times) ==> d.allowed
    ensures |times| as real <= Held(p, b, now)
    decreases |times|
  {
    hide Verdict, Held;
    assert times[0] in times && times[0] == now;
    AllAllowed(p, b, times);
    SpendsOne(p, b, now);
    if |times| > 1 {
      assert forall t :: t in times[1..] ==> t in times;
      AdmittedAtOnce(p, Verdict(p, b, now).0, now, times[1..]);
    }
  }

  lemma {:induction false} DrainThenAsk(p: Policy, k: nat, start: nat, later: nat, times: seq<nat>)
    requires p.Valid() && k <= p.burst && k < |times|
    requires forall i :: 0 <= i < |times| ==> times[i] == if i < k then start else later
    requires forall d :: d in Solo(p, RateBucket(k as real, start), times) ==> d.allowed
    ensures (|times| - k) as real <= Held(p, RateBucket(0.0, start), later)
    decreases k
  {
    var b := RateBucket(k as real, start);
    if k == 0 {
      AdmittedAtOnce(p, b, later, times);
    } else {
      assert Elapsed(start, start) * p.rate == 0.0;
      assert Verdict(p, b, start).0 == RateBucket((k - 1) as real, start);
      AllAllowed(p, b, times);
      DrainThenAsk(p, k - 1, start, later, times[1..]);
    }
  }

  lemma FreshFrom(p: Policy, times: seq<nat>)
    requires p.Valid() && times != []
    ensures Solo(p, Fresh(p), times) == Solo(p, RateBucket(p.burst as real, times[0]), times)
  {
    hide Verdict;
    var b := RateBucket(p.burst as real, times[0]);
    assert Elapsed(times[0], times[0]) * p.rate == 0.0;
    FullVerdict(p, b, times[0]);
  }

  lemma FullWhenSweptNeeded(p: Policy, start: nat)
    requires p.Valid() && start >= KEYED_CLEANUP_INTERVAL && !FullWhenSwept(p)
    ensures !Independent(p, start)
  {
    hide Steps, Live, Due, FullWhenSwept, Held, Verdict, StateAfter, MyTimes, MyDecisions, Solo;
    var n, later := p.burst, start + KEYED_LIMITER_TTL + 1;
    var calls, ds := Asks(n, start), seq(2 * n, i => AllowedDecision(p, Allowed));
    var states := seq(2 * n + 1, i requires 0 <= i <= 2 * n => StateAfter(n, start, i));
    forall i | 0 <= i < |calls|
      ensures Steps(p, states[i], calls[i], states[i + 1], ds[i])
      ensures |Live(states[i].entries, calls[i].now)| <= KEYED_MAX_ENTRIES
    {
      AskStep(p, start, i);
      LiveIsSmaller(states[i].entries, calls[i].now);
      FewEntries(n, start, i);
    }
    OneSlot(calls, ds);
    var times := MyTimes(calls, "a");
    if IndependentIn(p, start, states, calls, ds, "a") {
      assert states[0] == Table(map[], 0) by {
        EmptyAtFirst(n, start);
      }
      FreshFrom(p, times);
      assert Solo(p, RateBucket(n as real, start), times) == ds;
      DrainThenAsk(p, n, start, later, times);
      EmptyIsNotFull(p, start);
      assert false;
    }
  }

  lemma EmptyIsNotFull(p: Policy, start: nat)
    requires p.Valid() && !FullWhenSwept(p)
    ensures Held(p, RateBucket(0.0, start), start + KEYED_LIMITER_TTL + 1) < p.burst as real
  {
    var idle := 600_000_000_001.0;
    assert idle == (KEYED_LIMITER_TTL + 1) as real;
    assert idle / 1_000_000_000.0 * p.rate == p.rate * idle / 1_000_000_000.0;
  }

  /** Whenever the program starts after Go's zero time (by more than a sweep interval, so
      that the first call sweeps), keys are limited independently in every uncrowded run
      exactly when an emptied bucket refills in the time it takes a key to become idle. */
  lemma IndependentIffFullWhenSwept(p: Policy, start: nat)
    requires p.Valid() && start >= KEYED_CLEANUP_INTERVAL
    ensures Independent(p, start) <==> FullWhenSwept(p)
  {
    if FullWhenSwept(p) {
      FullWhenSweptSuffices(p, start);
    } else {
      FullWhenSweptNeeded(p, start);
    }
  }

  // ----- what a denial announces

  lemma WaitedEnough(p: Policy, missing: real, u: nat)
    requires p.Valid() && missing >= 0.0
    ensures var wait := missing / p.rate * 1_000_000_000.0;
      wait >= 0.0 && (u as real / 1_000_000_000.0 * p.rate >= missing <==> u as real >= wait)
  {
    var x, t := missing / p.rate, u as real / 1_000_000_000.0;
    assert x * p.rate == missing;
    assert t >= x ==> t * p.rate >= x * p.rate;
    assert t < x ==> t * p.rate < x * p.rate;
    assert x >= 0.0;
  }

  /** A denial leaves the bucket alone, and its wait, truncated to nanoseconds, is exact: a
      call before it has passed is denied, and one a nanosecond after it is allowed. The
      seconds are the wait rounded up, and at least one. */
  lemma DenialIsExact(p: Policy, b: RateBucket, now: nat, u: nat)
    requires p.Valid() && Sound(p, b) && b.last <= now && !Verdict(p, b, now).1.allowed
    ensures var (b', d) := Verdict(p, b, now);
      && b' == b && d.policy == p && d.outcome == RateLimited
      && 0 <= d.retryAfter <= d.retryAfterSeconds * SECOND_NS && d.retryAfterSeconds >= 1
      && (d.retryAfterSeconds > 1 ==> d.retryAfter > (d.retryAfterSeconds - 1) * SECOND_NS)
      && (u < d.retryAfter ==> !Verdict(p, b', now + u).1.allowed)
      && (u > d.retryAfter ==> Verdict(p, b', now + u).1.allowed)
  {
    var held := Held(p, b, now);
    WaitedEnough(p, 1.0 - held, u);
    LaterHeld(p, b, now, u);
    var delay := ((1.0 - held) / p.rate * 1_000_000_000.0).Floor;
    hide Held, Ceil;
    SecondsRoundUp(delay);
  }

  lemma SecondsRoundUp(nanos: int)
    ensures var seconds := Ceil(nanos as real / 1_000_000_000.0);
      (seconds - 1) * SECOND_NS < nanos <= seconds * SECOND_NS
  {
  }

  /** An untouched bucket below its burst holds what it held and the refill since. */
  lemma LaterHeld(p: Policy, b: RateBucket, now: nat, u: nat)
    requires p.Valid() && b.last <= now
    ensures Held(p, b, now + u) == Refill(p, Held(p, b, now), u as real / 1_000_000_000.0)
  {
    RefillComposes(p, b.tokens, Elapsed(b.last, now), u as real / 1_000_000_000.0);
    assert Elapsed(b.last, now + u) == Elapsed(b.last, now) + u as real / 1_000_000_000.0;
  }

  predicate Ascending(times: seq<nat>) {
    forall i, j :: 0 <= i < j < |times| ==> times[i] <= times[j]
  }

  /** The bucket that a run on one bucket has reached when it comes to call i. */
  lemma {:induction false} SoloReaches(p: Policy, b: RateBucket, times: seq<nat>, i: nat) returns (b': RateBucket)
    requires p.Valid() && Sound(p, b) && Ascending(times) && i < |times| && b.last <= times[0]
    ensures Sound(p, b') && b'.last <= times[i]
    ensures forall k :: i <= k < |times| ==> Solo(p, b, times)[k] == Solo(p, b', times[i..])[k - i]
    decreases i
  {
    if i == 0 {
      b' := b;
      assert times[0..] == times;
    } else {
      assert times[i - 1] <= times[i];
      hide *;
      var c := SoloReaches(p, b, times, i - 1);
      var rest := times[i - 1..];
      assert rest[0] == times[i - 1] && rest[1..] == times[i..];
      b' := Verdict(p, c, rest[0]).0;
      VerdictSound(p, c, rest[0]);
      SoloUnfolds(p, c, rest);
      forall k | i <= k < |times| ensures Solo(p, b, times)[k] == Solo(p, b', times[i..])[k - i] {
        assert Solo(p, b, times)[k] == Solo(p, c, rest)[k - (i - 1)];
      }
    }
  }

  lemma SoloUnfolds(p: Policy, b: RateBucket, times: seq<nat>)
    requires p.Valid() && times != []
    ensures var (b', d) := Verdict(p, b, times[0]); Solo(p, b, times) == [d] + Solo(p, b', times[1..])
  {
  }

  lemma {:induction false} DenialsKeepTheBucket(p: Policy, b: RateBucket, times: seq<nat>, k: nat)
    requires p.Valid() && k < |times| && forall i :: 0 <= i < k ==> !Solo(p, b, times)[i].allowed
    ensures Solo(p, b, times)[k] == Verdict(p, b, times[k]).1
    decreases k
  {
    if k > 0 {
      var ds := Solo(p, b, times);
      assert ds == [Verdict(p, b, times[0]).1] + Solo(p, Verdict(p, b, times[0]).0, times[1..]);
      assert !ds[0].allowed;
      assert Verdict(p, b, times[0]).0 == b;
      forall i | 0 <= i < k - 1 ensures !Solo(p, b, times[1..])[i].allowed {
        assert !ds[i + 1].allowed;
      }
      DenialsKeepTheBucket(p, b, times[1..], k - 1);
    }
  }

  /** In every run on one bucket, the limiter's global one or a key's own: after a denial
      and nothing but denials since, a call is denied while the announced wait has not
      passed, and allowed once it has. */
  lemma SoloRetryIsExact(p: Policy, b: RateBucket, times: seq<nat>, i: nat, j: nat)
    requires p.Valid() && Sound(p, b) && Ascending(times) && i < j < |times| && b.last <= times[0]
    requires forall k :: i <= k < j ==> !Solo(p, b, times)[k].allowed
    ensures var ds := Solo(p, b, times);
      && (times[j] - times[i] < ds[i].retryAfter ==> !ds[j].allowed)
      && (times[j] - times[i] > ds[i].retryAfter ==> ds[j].allowed)
  {
    hide Verdict, Solo, Sound;
    var ds, tail := Solo(p, b, times), times[i..];
    var b' := SoloReaches(p, b, times, i);
    forall k | 0 <= k < j - i ensures !Solo(p, b', tail)[k].allowed {
      assert ds[i + k] == Solo(p, b', tail)[i + k - i];
    }
    DenialsKeepTheBucket(p, b', tail, 0);
    DenialsKeepTheBucket(p, b', tail, j - i);
    DenialIsExact(p, b', times[i], times[j] - times[i]);
  }

  // ----- how much a bucket admits

  function Admitted(ds: seq<Decision>): nat {
    if ds == [] then 0 else (if ds[0].allowed then 1 else 0) + Admitted(ds[1..])
  }

  /** The refill of a stretch of time, cap aside. */
  function Gain(p: Policy, t: nat): real {
    t as real / 1_000_000_000.0 * p.rate
  }

  /** Touched or not, a bucket gains at most that. */
  lemma HeldGrowth(p: Policy, b: RateBucket, now: nat, later: nat)
    requires p.Valid() && b.last <= now <= later
    ensures Held(p, b, later) <= Held(p, b, now) + Gain(p, later - now)
  {
    LaterHeld(p, b, now, later - now);
  }

  lemma OneVerdictSpends(p: Policy, b: RateBucket, now: nat, later: nat)
    requires p.Valid() && Sound(p, b) && b.last <= now <= later
    ensures var (b', d) := Verdict(p, b, now);
      var spent := if d.allowed then 1 else 0;
      && spent as real <= Held(p, b, now)
      && spent as real + Held(p, b', later) <= Held(p, b, now) + Gain(p, later - now)
  {
    RefillBounds(p, b.tokens, Elapsed(b.last, now));
    VerdictSound(p, b, now);
    var (b', d) := Verdict(p, b, now);
    if d.allowed {
      SpendsOne(p, b, now);
    }
    hide Held, Gain, Sound;
    HeldGrowth(p, b', now, later);
  }

  lemma GainsAdd(p: Policy, s: nat, t: nat)
    ensures Gain(p, s + t) == Gain(p, s) + Gain(p, t)
  {
    var x, y := s as real / 1_000_000_000.0, t as real / 1_000_000_000.0;
    assert (s + t) as real / 1_000_000_000.0 == x + y;
    assert (x + y) * p.rate == x * p.rate + y * p.rate;
  }

  lemma NoGain(p: Policy)
    ensures Gain(p, 0) == 0.0
  {
  }

  /** A run on one bucket admits at most what it held and the refill over the run; from a
      full one, the burst plus the rate times the length. */
  lemma {:induction false} SoloAdmissionBound(p: Policy, b: RateBucket, times: seq<nat>)
    requires p.Valid() && Sound(p, b) && Ascending(times) && times != [] && b.last <= times[0]
    ensures Admitted(Solo(p, b, times)) as real <= Held(p, b, times[0]) + Gain(p, times[|times| - 1] - times[0])
    ensures Held(p, b, times[0]) <= p.burst as real
    decreases |times|
  {
    hide Verdict, Held, Sound, Gain;
    var now, rest := times[0], times[1..];
    var (b', d) := Verdict(p, b, now);
    HeldAtMostBurst(p, b, now);
    assert Solo(p, b, times) == [d] + Solo(p, b', rest);
    if rest == [] {
      OneVerdictSpends(p, b, now, now);
      NoGain(p);
      assert Admitted(Solo(p, b', rest)) == 0;
    } else {
      VerdictSound(p, b, now);
      OneVerdictSpends(p, b, now, rest[0]);
      SoloAdmissionBound(p, b', rest);
      GainsAdd(p, rest[0] - now, times[|times| - 1] - rest[0]);
    }
  }

  lemma HeldAtMostBurst(p: Policy, b: RateBucket, now: nat)
    ensures Held(p, b, now) <= p.burst as real
  {
  }

  // ----- the same for a key of the table

  /** Every slot of a reachable table is sound and was last filled when it was seen. */
  predicate SlotsSound(p: Policy, s: Table, t: nat) {
    forall k :: k in s.entries ==>
      Sound(p, s.entries[k].bucket) && s.entries[k].bucket.last <= s.entries[k].lastSeen <= t
  }

  lemma StepSlotsSound(p: Policy, s: Table, t: nat, c: Call, s': Table, d: Decision)
    requires p.Valid() && SlotsSound(p, s, t) && t <= c.now && Steps(p, s, c, s', d)
    ensures SlotsSound(p, s', c.now)
  {
    var kept: map<string, Slot> :| Leaves(s, c.now, kept) && (s', d) == Touch(p, kept, s, c);
    var slot := SlotKey(c.key);
    var b := if slot in kept then kept[slot].bucket else Fresh(p);
    assert Sound(p, b) && b.last <= c.now;
    VerdictSound(p, b, c.now);
    hide Verdict, Held;
  }

  lemma {:induction false} RunSlotsSound(p: Policy, states: seq<Table>, calls: seq<Call>, ds: seq<Decision>, n: nat)
    requires p.Valid() && IsRun(p, states, calls, ds) && InOrder(calls) && states[0] == Table(map[], 0)
    requires n < |calls|
    ensures SlotsSound(p, states[n], calls[n].now)
  {
    if n > 0 {
      hide Steps, Sound;
      RunSlotsSound(p, states, calls, ds, n - 1);
      assert Steps(p, states[n - 1], calls[n - 1], states[n - 1 + 1], ds[n - 1]);
      StepSlotsSound(p, states[n - 1], calls[n - 1].now, calls[n - 1], states[n], ds[n - 1]);
    }
  }

  /** The slot is gone, or holds this bucket. */
  predicate GoneOr(s: Table, slot: string, b: RateBucket) {
    slot in s.entries ==> s.entries[slot].bucket == b
  }

  /** While calls for the slot are denied, it keeps its bucket until it is swept. */
  lemma DeniedStep(p: Policy, s: Table, c: Call, s': Table, d: Decision, slot: string, b: RateBucket)
    requires p.Valid() && Steps(p, s, c, s', d) && GoneOr(s, slot, b) && (SlotKey(c.key) == slot ==> !d.allowed)
    ensures GoneOr(s', slot, b)
    ensures slot in s.entries && !Due(s, c.now) ==> slot in s'.entries
  {
    var kept: map<string, Slot> :| Leaves(s, c.now, kept) && (s', d) == Touch(p, kept, s, c);
    if SlotKey(c.key) == slot && slot !in kept {
      FreshAdmits(p, c.now);
    }
  }

  lemma FreshAdmits(p: Policy, now: nat)
    requires p.Valid()
    ensures Verdict(p, Fresh(p), now).1 == AllowedDecision(p, Allowed)
  {
    assert Elapsed(0, now) * p.rate >= 0.0;
  }

  /** The bucket a call for the slot was denied on. */
  lemma DeniedBucket(p: Policy, s: Table, t: nat, c: Call, s': Table, d: Decision) returns (b: RateBucket)
    requires p.Valid() && SlotsSound(p, s, t) && t <= c.now && Steps(p, s, c, s', d) && !d.allowed
    ensures Sound(p, b) && b.last <= c.now && Verdict(p, b, c.now).1 == d
    ensures SlotKey(c.key) in s'.entries && s'.entries[SlotKey(c.key)].bucket == b
  {
    var kept: map<string, Slot> :| Leaves(s, c.now, kept) && (s', d) == Touch(p, kept, s, c);
    FreshAdmits(p, c.now);
    b := kept[SlotKey(c.key)].bucket;
  }

  lemma {:induction false} DeniedSince(p: Policy, states: seq<Table>, calls: seq<Call>, ds: seq<Decision>,
                                       n: nat, m: nat, slot: string, b: RateBucket)
    requires p.Valid() && IsRun(p, states, calls, ds) && n < m <= |calls|
    requires slot in states[n + 1].entries && states[n + 1].entries[slot].bucket == b
    requires forall k :: n < k < m && SlotKey(calls[k].key) == slot ==> !ds[k].allowed
    ensures GoneOr(states[m], slot, b)
    ensures (forall k :: n < k < m ==> !Due(states[k], calls[k].now)) ==> slot in states[m].entries
    decreases m
  {
    if n + 1 < m {
      hide Steps, Due;
      DeniedSince(p, states, calls, ds, n, m - 1, slot, b);
      assert Steps(p, states[m - 1], calls[m - 1], states[m - 1 + 1], ds[m - 1]);
      DeniedStep(p, states[m - 1], calls[m - 1], states[m], ds[m - 1], slot, b);
    }
  }

  /** A call for the slot is decided on its bucket, or allowed on a fresh one after a sweep. */
  lemma NextOnSlot(p: Policy, s: Table, c: Call, s': Table, d: Decision, slot: string, b: RateBucket)
    requires p.Valid() && Steps(p, s, c, s', d) && GoneOr(s, slot, b) && SlotKey(c.key) == slot
    ensures d == Verdict(p, b, c.now).1 || d.allowed
    ensures slot in s.entries && !Due(s, c.now) ==> d == Verdict(p, b, c.now).1
  {
    var kept: map<string, Slot> :| Leaves(s, c.now, kept) && (s', d) == Touch(p, kept, s, c);
    FreshAdmits(p, c.now);
    hide Verdict;
  }

  /** None of the calls from number n to number m sweeps. */
  predicate NoSweep(states: seq<Table>, calls: seq<Call>, n: nat, m: nat)
    requires m < |calls| < |states|
  {
    forall k :: n <= k <= m ==> !Due(states[k], calls[k].now)
  }

  /** In every run of a keyed limiter, crowded or not: after a denial and nothing but denials
      for the same slot since, a call for it is allowed once the announced wait has passed;
      before that it is denied, unless a sweep has come in between. */
  lemma KeyedRetryIsExact(p: Policy, states: seq<Table>, calls: seq<Call>, ds: seq<Decision>, n: nat, m: nat)
    requires p.Valid() && IsRun(p, states, calls, ds) && InOrder(calls) && states[0] == Table(map[], 0)
    requires n < m < |calls| && SlotKey(calls[m].key) == SlotKey(calls[n].key) && !ds[n].allowed
    requires forall k :: n < k < m && SlotKey(calls[k].key) == SlotKey(calls[n].key) ==> !ds[k].allowed
    ensures calls[m].now - calls[n].now > ds[n].retryAfter ==> ds[m].allowed
    ensures calls[m].now - calls[n].now < ds[n].retryAfter && NoSweep(states, calls, n + 1, m) ==> !ds[m].allowed
  {
    var slot := SlotKey(calls[n].key);
    RunSlotsSound(p, states, calls, ds, n);
    assert Steps(p, states[n], calls[n], states[n + 1], ds[n]);
    var b := DeniedBucket(p, states[n], calls[n].now, calls[n], states[n + 1], ds[n]);
    hide Steps, Verdict, Sound, Due, SlotsSound;
    DeniedSince(p, states, calls, ds, n, m, slot, b);
    DenialIsExact(p, b, calls[n].now, calls[m].now - calls[n].now);
    assert Steps(p, states[m], calls[m], states[m + 1], ds[m]);
    NextOnSlot(p, states[m], calls[m], states[m + 1], ds[m], slot, b);
  }
}
