/** The Redis profile registry: availability of each named profile, reconnection with
    capped exponential backoff, and binding with a default to fall back on. Instants and
    durations are nanoseconds; instant 0 is Go's zero time. */
module ProfileRegistry {
  import opened Wrappers

  const INITIAL_RETRY_DELAY := 30 * SECOND_NS
  const MAX_RETRY_DELAY := 300 * SECOND_NS

  datatype Cause = ConnectFailed | ReconnectFailed | CheckFailed

  datatype Health = Health(lastErr: Option<Cause>, nextRetryAt: int, retryDelay: int)

  const UNTRIED := Health(None, 0, 0)

  /** What a probe of a profile meets: the reading before it, whether the connection or
      the ping succeeds, and the reading after it. */
  datatype Probe = Probe(now: int, ok: bool, at: int)

  function MarkedAvailable(h: Health): Health {
    Health(None, 0, 0)
  }

  function MarkedUnavailable(h: Health, cause: Cause, at: int): Health {
    var delay :=
      if h.retryDelay <= 0 then INITIAL_RETRY_DELAY
      else if h.retryDelay * 2 > MAX_RETRY_DELAY then MAX_RETRY_DELAY
      else h.retryDelay * 2;
    Health(Some(cause), at + delay, delay)
  }

  predicate RetryDue(h: Health, now: int) {
    h.lastErr.Some? && (h.nextRetryAt == 0 || now >= h.nextRetryAt)
  }

  function Connected(h: Health, p: Probe): Health {
    if p.ok then MarkedAvailable(h) else MarkedUnavailable(h, ConnectFailed, p.at)
  }

  function Checked(h: Health, p: Probe): Health {
    if h.lastErr.Some? then
      if !RetryDue(h, p.now) then h
      else if p.ok then MarkedAvailable(h)
      else MarkedUnavailable(h, ReconnectFailed, p.at)
    else if p.ok then h
    else MarkedUnavailable(h, CheckFailed, p.at)
  }

  datatype Event = Connect(probe: Probe) | Check(probe: Probe)

  function Step(h: Health, e: Event): Health {
    if e.Connect? then Connected(h, e.probe) else Checked(h, e.probe)
  }

  /** One call of Connect or HealthCheck, with what it meets at the default and at each name. */
  datatype Round = Round(connect: bool, defaultOk: bool, probe: string -> Probe)

  /** A failing default stops the round before any named profile. */
  predicate Runs(hasDefault: bool, r: Round) {
    !hasDefault || r.defaultOk
  }

  function EventOf(r: Round, name: string): Event {
    if r.connect then Connect(r.probe(name)) else Check(r.probe(name))
  }

  function RoundStep(hasDefault: bool, hs: map<string, Health>, r: Round): map<string, Health> {
    if !Runs(hasDefault, r) then hs else map n | n in hs :: Step(hs[n], EventOf(r, n))
  }

  lemma RoundIsSteps(hasDefault: bool, hs: map<string, Health>, hs': map<string, Health>, r: Round)
    requires Runs(hasDefault, r) && hs'.Keys == hs.Keys
    requires forall n :: n in hs ==> hs'[n] == Step(hs[n], EventOf(r, n))
    ensures hs' == RoundStep(hasDefault, hs, r)
  {
  }

  /** What a round does to one profile. Connect leaves it up or down as the connection went; a
      health check pings one that is up, leaves one that is down and not due alone, and tries
      to reconnect one that is due. A failing default leaves every profile as it was. */
  lemma RoundOutcome(hasDefault: bool, hs: map<string, Health>, r: Round, n: string)
    requires n in hs
    ensures var (h, p, h') := (hs[n], r.probe(n), RoundStep(hasDefault, hs, r)[n]);
      var tries := r.connect || h.lastErr.None? || h.nextRetryAt == 0 || h.nextRetryAt <= p.now;
      && RoundStep(hasDefault, hs, r).Keys == hs.Keys
      && if (hasDefault && !r.defaultOk) || !tries then h' == h
         else if p.ok then
           h' == if r.connect || h.lastErr.Some? then UNTRIED else h
         else
           && h'.lastErr == Some(if r.connect then ConnectFailed
                                 else if h.lastErr.Some? then ReconnectFailed else CheckFailed)
           && h'.nextRetryAt == p.at + h'.retryDelay
           && (h.retryDelay <= 0 ==> h'.retryDelay == 30 * SECOND_NS)
           && (h.retryDelay > 0 ==> h'.retryDelay == if 2 * h.retryDelay < 300 * SECOND_NS then 2 * h.retryDelay
                                                     else 300 * SECOND_NS)
  {
  }

  // ----- status and binding

  datatype Handle = Handle(profile: string)

  datatype ProfileState = Missing | Available | Unavailable

  datatype ProfileStatus = ProfileStatus(state: ProfileState, err: Option<Cause>, nextRetryAt: int)

  datatype Error = NoDefault | NotFound | Down(cause: Cause)

  function StatusIn(hs: map<string, Health>, name: string): ProfileStatus {
    if name == "" || name !in hs then ProfileStatus(Missing, None, 0)
    else if hs[name].lastErr.Some? then ProfileStatus(Unavailable, hs[name].lastErr, hs[name].nextRetryAt)
    else ProfileStatus(Available, None, 0)
  }

  function DefaultOf(hasDefault: bool): Result<Handle, Error> {
    if hasDefault then Ok(Handle("")) else Err(NoDefault)
  }

  /** The default for no name, the named profile when it is up, and the default again for
      a missing profile where fallback is enabled. */
  function BindIn(hasDefault: bool, fallback: bool, hs: map<string, Health>, name: string): Result<Handle, Error> {
    if name == "" then DefaultOf(hasDefault)
    else if name !in hs then (if fallback then DefaultOf(hasDefault) else Err(NotFound))
    else if hs[name].lastErr.Some? then Err(Down(hs[name].lastErr.value))
    else Ok(Handle(name))
  }

  // ----- the imperative form

  class NamedProfile {
    const handle: Handle
    var lastErr: Option<Cause>
    var nextRetryAt: int
    var retryDelay: int

    function View(): Health
      reads this
    {
      Health(lastErr, nextRetryAt, retryDelay)
    }

    constructor (handle: Handle)
      ensures this.handle == handle && View() == UNTRIED
    {
      this.handle := handle;
      lastErr, nextRetryAt, retryDelay := None, 0, 0;
    }

    method MarkAvailable()
      modifies this
      ensures View() == MarkedAvailable(old(View()))
    {
      lastErr := None;
      nextRetryAt := 0;
      retryDelay := 0;
    }

    method MarkUnavailable(cause: Cause, now: int)
      modifies this
      ensures View() == MarkedUnavailable(old(View()), cause, now)
    {
      lastErr := Some(cause);
      if retryDelay <= 0 {
        retryDelay := INITIAL_RETRY_DELAY;
      } else {
        retryDelay := retryDelay * 2;
        if retryDelay > MAX_RETRY_DELAY {
          retryDelay := MAX_RETRY_DELAY;
        }
      }
      nextRetryAt := now + retryDelay;
    }

    /** One turn of the loop in Connect. */
    method Join(p: Probe)
      modifies this
      ensures View() == Connected(old(View()), p)
    {
      if !p.ok {
        MarkUnavailable(ConnectFailed, p.at);
      } else {
        MarkAvailable();
      }
    }

    /** One turn of the loop in HealthCheck. */
    method Examine(p: Probe)
      modifies this
      ensures View() == Checked(old(View()), p)
    {
      if lastErr.Some? {
        if !(nextRetryAt == 0 || p.now >= nextRetryAt) {
          return;
        }
        if !p.ok {
          MarkUnavailable(ReconnectFailed, p.at);
          return;
        }
        MarkAvailable();
        return;
      }
      if !p.ok {
        MarkUnavailable(CheckFailed, p.at);
      }
    }
  }

  class Registry {
    const defaultHandle: Option<Handle>
    const fallbackOnMissing: bool
    var profiles: map<string, NamedProfile>

    ghost predicate Valid()
      reads this, profiles.Values
    {
      && (defaultHandle.Some? ==> defaultHandle.value == Handle(""))
      && (forall n :: n in profiles ==> n != "" && profiles[n].handle == Handle(n))
    }

    ghost function Healths(): map<string, Health>
      reads this, profiles.Values
    {
      map n | n in profiles :: profiles[n].View()
    }

    /** configured gives the named profiles; one with no name or no configuration is skipped. */
    constructor (hasDefault: bool, configured: map<string, bool>, fallback: bool)
      ensures Valid() && defaultHandle.Some? == hasDefault && fallbackOnMissing == fallback
      ensures Healths() == map n | n in configured && n != "" && configured[n] :: UNTRIED
      ensures forall n :: n in profiles ==> fresh(profiles[n])
    {
      defaultHandle := if hasDefault then Some(Handle("")) else None;
      fallbackOnMissing := fallback;
      profiles := map[];
      new;
      var todo := configured.Keys;
      while todo != {}
        invariant todo <= configured.Keys
        invariant profiles.Keys == (set n | n in configured && n !in todo && n != "" && configured[n])
        invariant forall n :: n in profiles ==>
          fresh(profiles[n]) && profiles[n].handle == Handle(n) && profiles[n].View() == UNTRIED
        decreases |todo|
      {
        var n :| n in todo;
        todo := todo - {n};
        if n != "" && configured[n] {
          var profile := new NamedProfile(Handle(n));
          profiles := profiles[n := profile];
        }
      }
    }

    /** A failing default connection stops the round before any named profile. */
    method Connect(defaultOk: bool, probe: string -> Probe) returns (ok: bool)
      requires Valid()
      modifies profiles.Values
      ensures Valid() && profiles == old(profiles)
      ensures ok == (defaultHandle.None? || defaultOk)
      ensures Healths() == RoundStep(defaultHandle.Some?, old(Healths()), Round(true, defaultOk, probe))
    {
      if defaultHandle.Some? && !defaultOk {
        return false;
      }
      ghost var before := Healths();
      JoinAll(probe);
      RoundIsSteps(defaultHandle.Some?, before, Healths(), Round(true, defaultOk, probe));
      return true;
    }

    method JoinAll(probe: string -> Probe)
      requires Valid()
      modifies profiles.Values
      ensures Valid() && profiles == old(profiles)
      ensures forall n :: n in profiles ==> profiles[n].View() == Connected(old(profiles[n].View()), probe(n))
    {
      hide Connected, Checked;
      var todo := profiles.Keys;
      while todo != {}
        invariant todo <= profiles.Keys && profiles == old(profiles) && Valid()
        invariant forall n :: n in profiles ==>
          profiles[n].View() == if n in todo then old(profiles[n].View())
                                else Connected(old(profiles[n].View()), probe(n))
        decreases |todo|
      {
        var n :| n in todo;
        todo := todo - {n};
        profiles[n].Join(probe(n));
      }
    }

    method HealthCheck(defaultOk: bool, probe: string -> Probe) returns (ok: bool)
      requires Valid()
      modifies profiles.Values
      ensures Valid() && profiles == old(profiles)
      ensures ok == (defaultHandle.None? || defaultOk)
      ensures Healths() == RoundStep(defaultHandle.Some?, old(Healths()), Round(false, defaultOk, probe))
    {
      if defaultHandle.Some? && !defaultOk {
        return false;
      }
      ghost var before := Healths();
      ExamineAll(probe);
      RoundIsSteps(defaultHandle.Some?, before, Healths(), Round(false, defaultOk, probe));
      return true;
    }

    method ExamineAll(probe: string -> Probe)
      requires Valid()
      modifies profiles.Values
      ensures Valid() && profiles == old(profiles)
      ensures forall n :: n in profiles ==> profiles[n].View() == Checked(old(profiles[n].View()), probe(n))
    {
      hide Connected, Checked;
      var todo := profiles.Keys;
      while todo != {}
        invariant todo <= profiles.Keys && profiles == old(profiles) && Valid()
        invariant forall n :: n in profiles ==>
          profiles[n].View() == if n in todo then old(profiles[n].View())
                                else Checked(old(profiles[n].View()), probe(n))
        decreases |todo|
      {
        var n :| n in todo;
        todo := todo - {n};
        profiles[n].Examine(probe(n));
      }
    }

    function Default(): (r: Result<Handle, Error>)
      reads this, profiles.Values
      ensures Valid() ==> r == DefaultOf(defaultHandle.Some?)
    {
      if defaultHandle.None? then Err(NoDefault) else Ok(defaultHandle.value)
    }

    function ByProfile(name: string): Result<Handle, Error>
      reads this, profiles.Values
    {
      if name == "" then Default()
      else if name !in profiles then Err(NotFound)
      else if profiles[name].lastErr.Some? then Err(Down(profiles[name].lastErr.value))
      else Ok(profiles[name].handle)
    }

    function Status(name: string): (r: ProfileStatus)
      reads this, profiles.Values
      ensures r == StatusIn(Healths(), name)
    {
      if name == "" || name !in profiles then ProfileStatus(Missing, None, 0)
      else if profiles[name].lastErr.Some? then
        ProfileStatus(Unavailable, profiles[name].lastErr, profiles[name].nextRetryAt)
      else ProfileStatus(Available, None, 0)
    }

    function Bind(name: string): (r: Result<Handle, Error>)
      reads this, profiles.Values
      ensures Valid() ==> r == BindIn(defaultHandle.Some?, fallbackOnMissing, Healths(), name)
    {
      if name == "" then Default()
      else
        var byProfile := ByProfile(name);
        if byProfile.Ok? then byProfile
        else if Status(name).state.Missing? && fallbackOnMissing then Default()
        else byProfile
    }
  }

  /** A binding yields the named handle exactly when the profile's status is available;
      a profile that is down is reported as such and never replaced by the default,
      which stands in for missing profiles only, and only when that is switched on. */
  lemma BindAgreesWithStatus(hasDefault: bool, fallback: bool, hs: map<string, Health>, name: string)
    ensures var (bound, status) := (BindIn(hasDefault, fallback, hs, name), StatusIn(hs, name));
      && (name == "" ==> status == ProfileStatus(Missing, None, 0))
      && (name != "" ==> (bound == Ok(Handle(name)) <==> status.state.Available?))
      && (name != "" && status.state.Missing? && !fallback ==> bound == Err(NotFound))
      && (status.state.Unavailable? ==> status.err.Some? && bound == Err(Down(status.err.value)))
      && (bound == Ok(Handle("")) <==> (name == "" || (status.state.Missing? && fallback)) && hasDefault)
      && (bound == Err(NoDefault) <==> (name == "" || (status.state.Missing? && fallback)) && !hasDefault)
  {
  }

  // ----- runs of one profile

  /** Whether the event reaches out to the server at all. */
  predicate Tries(h: Health, e: Event) {
    e.Connect? || h.lastErr.None? || RetryDue(h, e.probe.now)
  }

  function After(events: seq<Event>): Health {
    if events == [] then UNTRIED else Step(After(events[..|events| - 1]), events[|events| - 1])
  }

  /** The probes a run makes, in order. */
  function Tried(events: seq<Event>): seq<Probe> {
    if events == [] then []
    else
      var before, e := events[..|events| - 1], events[|events| - 1];
      Tried(before) + (if Tries(After(before), e) then [e.probe] else [])
  }

  /** Failed probes since the last one that succeeded. */
  function Streak(probes: seq<Probe>): nat {
    if probes == [] || probes[|probes| - 1].ok then 0 else 1 + Streak(probes[..|probes| - 1])
  }

  function Pow2(n: nat): nat {
    if n == 0 then 1 else 2 * Pow2(n - 1)
  }

  /** The delay after the n-th consecutive failure. */
  function Delay(n: nat): int {
    if n == 0 then 0
    else if INITIAL_RETRY_DELAY * Pow2(n - 1) < MAX_RETRY_DELAY then INITIAL_RETRY_DELAY * Pow2(n - 1)
    else MAX_RETRY_DELAY
  }

  /** Clock readings are past Go's zero time. */
  predicate Dated(events: seq<Event>) {
    forall i :: 0 <= i < |events| ==> events[i].probe.at >= 0
  }

  lemma {:induction false} PowIsPositive(n: nat)
    ensures Pow2(n) >= 1
  {
    if n > 0 {
      PowIsPositive(n - 1);
    }
  }

  lemma FailureDelay(h: Health, n: nat, cause: Cause, at: int)
    requires h.retryDelay == Delay(n)
    ensures var h' := MarkedUnavailable(h, cause, at);
      h'.retryDelay == Delay(n + 1) > 0 && h'.nextRetryAt == at + Delay(n + 1)
  {
    if n > 0 {
      PowIsPositive(n - 1);
      assert Pow2(n) == 2 * Pow2(n - 1);
    } else {
      assert Pow2(0) == 1;
    }
  }

  /** With n failures since the last success the delay is min(30s * 2^(n-1), 5min) and the
      retry time is that long after the last failure; the error, the delay and the retry
      time are all clear exactly when n is 0. */
  predicate ClosedForm(h: Health, probes: seq<Probe>) {
    var n := Streak(probes);
    && h.retryDelay == Delay(n) >= 0
    && (n > 0 ==> h.nextRetryAt == probes[|probes| - 1].at + Delay(n) > 0)
    && (h.lastErr.None? <==> n == 0)
    && (h.lastErr.None? <==> h.retryDelay == 0)
    && (h.lastErr.None? <==> h.nextRetryAt == 0)
  }

  lemma StepClosedForm(h: Health, probes: seq<Probe>, e: Event)
    requires ClosedForm(h, probes) && e.probe.at >= 0
    ensures ClosedForm(Step(h, e), if Tries(h, e) then probes + [e.probe] else probes)
  {
    hide Delay, MarkedUnavailable;
    var n := Streak(probes);
    assert (probes + [e.probe])[..|probes|] == probes;
    assert Streak(probes + [e.probe]) == if e.probe.ok then 0 else 1 + n;
    NoDelayAtFirst();
    if Tries(h, e) && !e.probe.ok {
      var cause := if e.Connect? then ConnectFailed else if h.lastErr.Some? then ReconnectFailed else CheckFailed;
      FailureDelay(h, n, cause, e.probe.at);
      MarksTheCause(h, cause, e.probe.at);
    }
  }

  lemma NoDelayAtFirst()
    ensures Delay(0) == 0
  {
  }

  lemma MarksTheCause(h: Health, cause: Cause, at: int)
    ensures MarkedUnavailable(h, cause, at).lastErr == Some(cause)
  {
  }

  /** In every reachable state a profile's health is a function of the probes made so far. */
  lemma {:induction false} BackoffClosedForm(events: seq<Event>)
    requires Dated(events)
    ensures ClosedForm(After(events), Tried(events))
  {
    if events == [] {
      NoDelayAtFirst();
    } else {
      hide ClosedForm, Step, Tries;
      BackoffClosedForm(events[..|events| - 1]);
      StepClosedForm(After(events[..|events| - 1]), Tried(events[..|events| - 1]), events[|events| - 1]);
      SkippedIsNothing(events);
    }
  }

  lemma SkippedIsNothing(events: seq<Event>)
    requires events != []
    ensures var before, e := events[..|events| - 1], events[|events| - 1];
      Tried(events) == if Tries(After(before), e) then Tried(before) + [e.probe] else Tried(before)
  {
  }

  // ----- runs of the registry

  function AfterRounds(hasDefault: bool, names: set<string>, rounds: seq<Round>): (hs: map<string, Health>)
    ensures hs.Keys == names
  {
    if rounds == [] then map n | n in names :: UNTRIED
    else RoundStep(hasDefault, AfterRounds(hasDefault, names, rounds[..|rounds| - 1]), rounds[|rounds| - 1])
  }

  /** What the rounds that the default does not stop hold for one name. */
  function EventsFor(hasDefault: bool, rounds: seq<Round>, name: string): seq<Event> {
    if rounds == [] then []
    else
      var r := rounds[|rounds| - 1];
      var before := EventsFor(hasDefault, rounds[..|rounds| - 1], name);
      if hasDefault && !r.defaultOk then before
      else before + [if r.connect then Connect(r.probe(name)) else Check(r.probe(name))]
  }

  /** Clock readings are past Go's zero time. */
  ghost predicate DatedRounds(rounds: seq<Round>) {
    forall i, name :: 0 <= i < |rounds| ==> rounds[i].probe(name).at >= 0
  }

  lemma {:induction false} RoundsAreEvents(hasDefault: bool, names: set<string>, rounds: seq<Round>, name: string)
    requires DatedRounds(rounds)
    ensures Dated(EventsFor(hasDefault, rounds, name))
    ensures name in names ==>
      AfterRounds(hasDefault, names, rounds)[name] == After(EventsFor(hasDefault, rounds, name))
  {
    if rounds != [] {
      hide Step;
      var before, r := rounds[..|rounds| - 1], rounds[|rounds| - 1];
      RoundsAreEvents(hasDefault, names, before, name);
      var events, e := EventsFor(hasDefault, before, name), EventOf(r, name);
      assert After(events + [e]) == Step(After(events), e) by {
        assert (events + [e])[..|events|] == events;
      }
      assert events + [] == events;
      assert r.probe(name).at >= 0;
    }
  }

  /** After any rounds of Connect and HealthCheck, a configured name is bound to its own
      handle exactly when its last probe, if any, succeeded; otherwise it is reported down
      until the closed-form delay after its last failure. Any other name is missing. */
  lemma RoundsBackOff(hasDefault: bool, fallback: bool, names: set<string>, rounds: seq<Round>, name: string)
    requires DatedRounds(rounds) && name != ""
    ensures var hs := AfterRounds(hasDefault, names, rounds);
      var probes := Tried(EventsFor(hasDefault, rounds, name));
      var n, status, bound := Streak(probes), StatusIn(hs, name), BindIn(hasDefault, fallback, hs, name);
      if name !in names then
        status.state.Missing? && bound == if fallback then DefaultOf(hasDefault) else Err(NotFound)
      else
        && ClosedForm(hs[name], probes)
        && (n == 0 ==> status == ProfileStatus(Available, None, 0) && bound == Ok(Handle(name)))
        && (n > 0 ==>
              && status.state.Unavailable? && status.nextRetryAt == probes[|probes| - 1].at + Delay(n)
              && status.err.Some? && bound == Err(Down(status.err.value)))
  {
    hide Step;
    RoundsAreEvents(hasDefault, names, rounds, name);
    BackoffClosedForm(EventsFor(hasDefault, rounds, name));
  }

  /** After n > 0 consecutive failures a health check reconnects exactly from the
      published retry time on, which is the closed-form delay after the last failure. */
  lemma ReconnectsWhenDue(events: seq<Event>, p: Probe)
    requires Dated(events) && Streak(Tried(events)) > 0
    ensures var probes := Tried(events);
      probes != [] &&
      (Tries(After(events), Check(p)) <==> p.now >= probes[|probes| - 1].at + Delay(Streak(probes)))
  {
    BackoffClosedForm(events);
  }

  // ----- how rarely a dead server is tried

  function DelaySum(n: nat): int {
    if n == 0 then 0 else DelaySum(n - 1) + Delay(n)
  }

  predicate FailingChecks(events: seq<Event>) {
    forall i :: 0 <= i < |events| ==>
      events[i].Check? && events[i].probe.now <= events[i].probe.at && !events[i].probe.ok
  }

  /** While every probe of the health checks fails, the n-th one comes at least
      Delay(1) + ... + Delay(n-1) after the first. */
  lemma {:induction false} FailuresAreSpread(events: seq<Event>)
    requires Dated(events) && FailingChecks(events)
    ensures var probes := Tried(events);
      && Streak(probes) == |probes|
      && (probes != [] ==> probes[|probes| - 1].at - probes[0].at >= DelaySum(|probes| - 1))
  {
    if events != [] {
      var before, e := events[..|events| - 1], events[|events| - 1];
      FailuresAreSpread(before);
      if Tries(After(before), e) {
        assert (Tried(before) + [e.probe])[..|Tried(before)|] == Tried(before);
        if Tried(before) != [] {
          ReconnectsWhenDue(before, e.probe);
          assert e == Check(e.probe);
        }
      } else {
        assert Tried(events) == Tried(before);
      }
    }
  }
}
