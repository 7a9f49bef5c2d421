/** How a delivered message is acknowledged: Message.Ack and Nack, and the check-then-act
    of the two subscribers after the handler returns, interleaved with any number of
    goroutines that still hold the message. */
module Settlement {
  import opened Wrappers

  datatype Kind = Ack | Nack

  // ----- the imperative form, one goroutine at a time

  class Message {
    const callbacks: set<Kind>
    var settled: bool
    var started: seq<Kind>

    constructor (callbacks: set<Kind>)
      ensures this.callbacks == callbacks && !settled && started == []
    {
      this.callbacks := callbacks;
      settled, started := false, [];
    }

    /** Ack and Nack: the first call runs its callback, if there is one; the rest do nothing. */
    method Settle(kind: Kind, callbackOk: bool) returns (ok: bool)
      modifies this
      ensures settled
      ensures started == if old(settled) || kind !in callbacks then old(started) else old(started) + [kind]
      ensures ok == (old(settled) || kind !in callbacks || callbackOk)
    {
      if settled {
        return true;
      }
      settled := true;
      if kind in callbacks {
        started := started + [kind];
        return callbackOk;
      }
      return true;
    }

    method IsSettled() returns (r: bool)
      ensures r == settled
    {
      return settled;
    }
  }

  /** One delivery whose handler settles the message as listed and then returns: exactly
      one callback runs, the handler's first choice, or the one its result calls for. */
  method Deliver(m: Message, choices: seq<Kind>, failed: bool)
    requires !m.settled && m.started == [] && m.callbacks == {Ack, Nack}
    modifies m
    ensures m.settled
    ensures m.started == [if choices != [] then choices[0] else if failed then Nack else Ack]
  {
    for i := 0 to |choices|
      invariant m.settled == (i > 0)
      invariant m.started == if i > 0 then [choices[0]] else []
    {
      assert choices[i].Ack? || choices[i].Nack?;
      var _ := m.Settle(choices[i], true);
    }
    var settled := m.IsSettled();
    if failed {
      if !settled {
        var _ := m.Settle(Nack, true);
      }
    } else {
      if !settled {
        var _ := m.Settle(Ack, true);
      }
    }
  }

  // ----- the concurrent form

  /** Where a goroutine is in Ack or Nack. */
  datatype Pc =
    | Idle
    | Waiting(kind: Kind)   // called, the mutex not taken yet
    | Checking(kind: Kind)  // holds the mutex
    | Leaving               // saw the message settled, holds the mutex
    | Claimed(kind: Kind)   // has set the flag, holds the mutex
    | Running(kind: Kind)   // released the mutex, about to start the callback

  /** Where the subscriber is. */
  datatype Sub =
    | Handling
    | Asking(failed: bool)                // handler returned, IsSettled waits for the mutex
    | Reading(failed: bool)               // IsSettled holds the mutex
    | Answered(failed: bool, saw: bool)   // IsSettled has read the flag, holds the mutex
    | Settling                            // in its own Ack or Nack
    | Done

  /** Goroutine 0 is the subscriber. first is a history variable: who set the flag, and why. */
  datatype State = State(settled: bool, lock: Option<nat>, pcs: map<nat, Pc>, sub: Sub,
                         started: seq<Kind>, first: Option<(nat, Kind)>)

  datatype Step =
    | Call(t: nat, kind: Kind)
    | Lock(t: nat)
    | Test(t: nat)
    | Unlock(t: nat)
    | Start(t: nat)
    | Return(failed: bool)
    | AskLock
    | AskRead
    | AskUnlock
    | Finish

  const INIT := State(false, None, map[], Handling, [], None)

  function PcOf(s: State, t: nat): Pc {
    if t in s.pcs then s.pcs[t] else Idle
  }

  predicate Enabled(s: State, step: Step) {
    match step
    case Call(t, _) => t > 0 && PcOf(s, t).Idle?
    case Lock(t) => PcOf(s, t).Waiting? && s.lock.None?
    case Test(t) => PcOf(s, t).Checking?
    case Unlock(t) => PcOf(s, t).Leaving? || PcOf(s, t).Claimed?
    case Start(t) => PcOf(s, t).Running?
    case Return(_) => s.sub.Handling?
    case AskLock => s.sub.Asking? && s.lock.None?
    case AskRead => s.sub.Reading?
    case AskUnlock => s.sub.Answered?
    case Finish => s.sub.Settling? && PcOf(s, 0).Idle?
  }

  function Next(s: State, step: Step): State
    requires Enabled(s, step)
  {
    match step
    case Call(t, kind) => s.(pcs := s.pcs[t := Waiting(kind)])
    case Lock(t) => s.(lock := Some(t), pcs := s.pcs[t := Checking(PcOf(s, t).kind)])
    case Test(t) =>
      if s.settled then s.(pcs := s.pcs[t := Leaving])
      else s.(settled := true, first := Some((t, PcOf(s, t).kind)), pcs := s.pcs[t := Claimed(PcOf(s, t).kind)])
    case Unlock(t) =>
      s.(lock := None, pcs := s.pcs[t := if PcOf(s, t).Leaving? then Idle else Running(PcOf(s, t).kind)])
    case Start(t) => s.(started := s.started + [PcOf(s, t).kind], pcs := s.pcs[t := Idle])
    case Return(failed) => s.(sub := Asking(failed))
    case AskLock => s.(lock := Some(0), sub := Reading(s.sub.failed))
    case AskRead => s.(sub := Answered(s.sub.failed, s.settled))
    case AskUnlock =>
      if s.sub.saw then s.(lock := None, sub := Done)
      else s.(lock := None, sub := Settling, pcs := s.pcs[0 := Waiting(if s.sub.failed then Nack else Ack)])
    case Finish => s.(sub := Done)
  }

  ghost predicate IsRun(states: seq<State>, steps: seq<Step>) {
    && |states| == |steps| + 1 && states[0] == INIT
    && forall i :: 0 <= i < |steps| ==> Enabled(states[i], steps[i]) && states[i + 1] == Next(states[i], steps[i])
  }

  lemma RunStep(states: seq<State>, steps: seq<Step>, n: nat)
    requires IsRun(states, steps) && n < |steps|
    ensures |states| == |steps| + 1
    ensures Enabled(states[n], steps[n]) && states[n + 1] == Next(states[n], steps[n])
  {
    hide Enabled, Next;
  }

  // ----- the invariant

  predicate HoldsLock(pc: Pc) {
    pc.Checking? || pc.Leaving? || pc.Claimed?
  }

  /** Has set the flag and not yet started its callback. */
  predicate Committed(pc: Pc) {
    pc.Claimed? || pc.Running?
  }

  predicate LockInv(s: State) {
    && (s.sub.Reading? || s.sub.Answered? ==> s.lock == Some(0))
    && (forall t :: t in s.pcs && HoldsLock(s.pcs[t]) ==> s.lock == Some(t))
    && (s.lock.Some? ==> HoldsLock(PcOf(s, s.lock.value))
                         || (s.lock.value == 0 && (s.sub.Reading? || s.sub.Answered?)))
    && (!s.sub.Settling? ==> PcOf(s, 0).Idle?)
  }

  predicate FlagInv(s: State) {
    && (s.settled <==> s.first.Some?)
    && (forall t :: t in s.pcs && s.pcs[t].Leaving? ==> s.settled)
    && (forall t :: t in s.pcs && Committed(s.pcs[t]) ==> s.first == Some((t, s.pcs[t].kind)) && s.started == [])
    && (s.first.None? ==> s.started == [])
    && (s.first.Some? ==> s.started == [s.first.value.1]
                          || (s.started == [] && Committed(PcOf(s, s.first.value.0))))
    && (s.sub.Done? || (s.sub.Answered? && s.sub.saw) || (s.sub.Settling? && PcOf(s, 0).Idle?) ==> s.settled)
  }

  predicate Inv(s: State) {
    LockInv(s) && FlagInv(s)
  }

  lemma StepLockInv(s: State, step: Step)
    requires LockInv(s) && Enabled(s, step)
    ensures LockInv(Next(s, step))
  {
  }

  lemma StepFlagInv(s: State, step: Step)
    requires LockInv(s) && FlagInv(s) && Enabled(s, step)
    ensures FlagInv(Next(s, step))
  {
  }

  lemma StepInv(s: State, step: Step)
    requires Inv(s) && Enabled(s, step)
    ensures Inv(Next(s, step))
  {
    StepLockInv(s, step);
    StepFlagInv(s, step);
  }

  lemma {:induction false} RunInv(states: seq<State>, steps: seq<Step>, n: nat)
    requires IsRun(states, steps) && n <= |steps|
    ensures Inv(states[n])
  {
    if n > 0 {
      RunInv(states, steps, n - 1);
      StepInv(states[n - 1], steps[n - 1]);
      assert states[n - 1 + 1] == Next(states[n - 1], steps[n - 1]);
    }
  }

  predicate StartedOrAboutTo(s: State, t: nat, kind: Kind) {
    s.started == [kind] || (s.started == [] && PcOf(s, t) in {Claimed(kind), Running(kind)})
  }

  /** Over every interleaving: at most one callback is ever started, the one chosen by the
      goroutine that settled the message; once the subscriber is done the message is
      settled; and then exactly one callback has been started or is about to be, by a
      goroutine that cannot be stopped from starting it. */
  lemma SettledExactlyOnce(states: seq<State>, steps: seq<Step>, n: nat)
    requires IsRun(states, steps) && n <= |steps|
    ensures var s := states[n];
      && |s.started| <= 1
      && (s.sub.Done? ==> s.settled)
      && (s.settled <==> s.first.Some?)
      && (s.first.Some? ==> StartedOrAboutTo(s, s.first.value.0, s.first.value.1))
      && (s.sub.Done? && (forall t :: t in s.pcs ==> !Committed(s.pcs[t])) ==> |s.started| == 1)
  {
    RunInv(states, steps, n);
  }

  /** Once settled, settled for good, by the same goroutine for the same reason, and
      with the one callback that was started. */
  predicate Kept(s: State, s': State) {
    s.settled ==> s'.settled && s'.first == s.first && (s.started != [] ==> s'.started == s.started)
  }

  lemma StepKeeps(s0: State, s: State, step: Step)
    requires Inv(s) && Enabled(s, step) && Kept(s0, s)
    ensures Kept(s0, Next(s, step))
  {
  }

  lemma KeepsItself(s: State)
    ensures Kept(s, s)
  {
  }

  /** A settled message never changes its mind. */
  lemma {:induction false} FirstIsForGood(states: seq<State>, steps: seq<Step>, n: nat, m: nat)
    requires IsRun(states, steps) && n <= m <= |steps| < |states|
    ensures Kept(states[n], states[m])
    decreases m - n
  {
    hide *;
    if n == m {
      KeepsItself(states[n]);
    } else {
      FirstIsForGood(states, steps, n, m - 1);
      RunInv(states, steps, m - 1);
      RunStep(states, steps, m - 1);
      StepKeeps(states[n], states[m - 1], steps[m - 1]);
    }
  }

  // ----- nothing is settled that nobody asked for

  /** What is on record for goroutine t in its place. */
  predicate KindAt(s: State, t: nat, kind: Kind) {
    || PcOf(s, t) in {Waiting(kind), Checking(kind), Claimed(kind), Running(kind)}
    || s.first == Some((t, kind))
  }

  /** Goroutine t asked for this kind: by a call of its own, or as the subscriber after a
      handler with the result that calls for it. */
  ghost predicate Asked(steps: seq<Step>, n: nat, t: nat, kind: Kind)
    requires n <= |steps|
  {
    exists i :: 0 <= i < n && (steps[i] == Call(t, kind) || (t == 0 && steps[i] == Return(kind == Nack)))
  }

  ghost predicate AllAsked(s: State, steps: seq<Step>, n: nat)
    requires n <= |steps|
  {
    && (forall t, kind :: KindAt(s, t, kind) ==> Asked(steps, n, t, kind))
    && (s.sub.Asking? || s.sub.Reading? || s.sub.Answered? ==>
          Asked(steps, n, 0, if s.sub.failed then Nack else Ack))
  }

  lemma StepAsked(s: State, steps: seq<Step>, n: nat)
    requires n < |steps| && Inv(s) && Enabled(s, steps[n]) && AllAsked(s, steps, n)
    ensures AllAsked(Next(s, steps[n]), steps, n + 1)
  {
    var s' := Next(s, steps[n]);
    forall t: nat, kind | Asked(steps, n, t, kind) ensures Asked(steps, n + 1, t, kind) {
    }
    forall t: nat, kind | KindAt(s', t, kind) ensures Asked(steps, n + 1, t, kind) {
      if !KindAt(s, t, kind) && steps[n].AskUnlock? {
        assert t == 0;
      }
    }
  }

  /** Over every interleaving, the callback that starts is one that was asked for: the
      goroutine that settled the message called for it, or it is the subscriber and the
      handler's result does. */
  lemma {:induction false} StartedWasAsked(states: seq<State>, steps: seq<Step>, n: nat)
    requires IsRun(states, steps) && n <= |steps|
    ensures AllAsked(states[n], steps, n)
    ensures forall kind :: kind in states[n].started ==>
      states[n].first.Some? && states[n].first.value.1 == kind && Asked(steps, n, states[n].first.value.0, kind)
  {
    hide *;
    RunLength(states, steps);
    RunInv(states, steps, n);
    if n == 0 {
      NothingAsked(states, steps);
    } else {
      StartedWasAsked(states, steps, n - 1);
      RunInv(states, steps, n - 1);
      RunStep(states, steps, n - 1);
      StepAsked(states[n - 1], steps, n - 1);
    }
    StartedIsFirst(states[n], steps, n);
  }

  lemma RunLength(states: seq<State>, steps: seq<Step>)
    requires IsRun(states, steps)
    ensures |states| == |steps| + 1
  {
  }

  lemma NothingAsked(states: seq<State>, steps: seq<Step>)
    requires IsRun(states, steps)
    ensures AllAsked(states[0], steps, 0)
  {
  }

  lemma StartedIsFirst(s: State, steps: seq<Step>, n: nat)
    requires n <= |steps| && Inv(s) && AllAsked(s, steps, n)
    ensures forall kind :: kind in s.started ==>
      s.first.Some? && s.first.value.1 == kind && Asked(steps, n, s.first.value.0, kind)
  {
    hide Asked;
    assert s.first.Some? ==> KindAt(s, s.first.value.0, s.first.value.1);
  }

  /** The subscriber acts alone, on the result it was given. */
  predicate Alone(s: State, failed: bool) {
    && !s.sub.Handling? && (forall t :: t in s.pcs ==> t == 0)
    && (s.sub.Asking? || s.sub.Reading? || s.sub.Answered? ==> s.sub.failed == failed && !s.settled)
    && (s.sub.Answered? ==> !s.sub.saw)
    && (s.first.Some? ==> s.first.value.1 == if failed then Nack else Ack)
    && (PcOf(s, 0).Waiting? || PcOf(s, 0).Checking? ==> PcOf(s, 0).kind == if failed then Nack else Ack)
  }

  lemma AloneStep(s: State, step: Step, failed: bool)
    requires Inv(s) && Alone(s, failed) && Enabled(s, step) && !step.Call?
    ensures Alone(Next(s, step), failed)
  {
  }

  lemma {:induction false} StaysAlone(states: seq<State>, steps: seq<Step>, n: nat)
    requires IsRun(states, steps) && 0 < n <= |steps|
    requires forall i :: 0 <= i < |steps| ==> !steps[i].Call?
    ensures steps[0].Return? && Alone(states[n], steps[0].failed)
  {
    hide Alone, Inv, Enabled, Next;
    assert Enabled(states[n - 1], steps[n - 1]) && states[n - 1 + 1] == Next(states[n - 1], steps[n - 1]);
    if n == 1 {
      FirstReturns(steps[0]);
    } else {
      StaysAlone(states, steps, n - 1);
      RunInv(states, steps, n - 1);
      AloneStep(states[n - 1], steps[n - 1], steps[0].failed);
    }
  }

  lemma FirstReturns(step: Step)
    requires Enabled(INIT, step) && !step.Call?
    ensures step.Return? && Alone(Next(INIT, step), step.failed)
  {
  }

  /** When nobody else touches the message, a finished subscriber has acknowledged it if
      the handler returned no error and rejected it if it did, or is about to. */
  lemma UntouchedFollowsResult(states: seq<State>, steps: seq<Step>, n: nat)
    requires IsRun(states, steps) && n <= |steps| && states[n].sub.Done?
    requires forall i :: 0 <= i < |steps| ==> !steps[i].Call?
    ensures steps != [] && steps[0].Return? && states[n].started == [if steps[0].failed then Nack else Ack]
  {
    StaysAlone(states, steps, n);
    RunInv(states, steps, n);
  }

  // ----- the subscriber is never blocked for good

  /** The next step of whoever holds the mutex. */
  function HolderStep(s: State): Step
    requires s.lock.Some?
  {
    if s.sub.Reading? then AskRead
    else if s.sub.Answered? then AskUnlock
    else if PcOf(s, s.lock.value).Checking? then Test(s.lock.value)
    else Unlock(s.lock.value)
  }

  /** The next step of a subscriber whose handler has returned. */
  function SubscriberStep(s: State): Step {
    match s.sub
    case Asking(_) => AskLock
    case Reading(_) => AskRead
    case Answered(_, _) => AskUnlock
    case _ =>
      match PcOf(s, 0)
      case Idle => Finish
      case Waiting(_) => Lock(0)
      case Checking(_) => Test(0)
      case Running(_) => Start(0)
      case _ => Unlock(0)
  }

  /** Once the handler has returned, the subscriber can take its next step unless another
      goroutine holds the mutex, and then that one can take its own. */
  lemma NeverStuck(states: seq<State>, steps: seq<Step>, n: nat)
    requires IsRun(states, steps) && n <= |steps|
    requires !states[n].sub.Handling? && !states[n].sub.Done?
    ensures var s := states[n];
      || Enabled(s, SubscriberStep(s))
      || (s.lock.Some? && s.lock.value != 0 && Enabled(s, HolderStep(s)))
  {
    RunInv(states, steps, n);
  }

  /** The next step of a goroutine in Ack or Nack. */
  function GoroutineStep(s: State, t: nat): Step
    requires !PcOf(s, t).Idle?
  {
    match PcOf(s, t)
    case Waiting(_) => Lock(t)
    case Checking(_) => Test(t)
    case Running(_) => Start(t)
    case _ => Unlock(t)
  }

  /** Any other goroutine may call Ack or Nack whenever it is not in one, and once in it
      can go on unless the mutex is held by somebody who can. */
  lemma NobodyIsStuck(states: seq<State>, steps: seq<Step>, n: nat, t: nat, kind: Kind)
    requires IsRun(states, steps) && n <= |steps| && t > 0
    ensures var s := states[n];
      if PcOf(s, t).Idle? then Enabled(s, Call(t, kind))
      else Enabled(s, GoroutineStep(s, t)) || (s.lock.Some? && s.lock != Some(t) && Enabled(s, HolderStep(s)))
  {
    RunInv(states, steps, n);
  }

  /** The steps of an uninterrupted Ack or Nack do what Message.Settle does: the first call
      sets the flag and starts its callback, later ones do nothing. */
  lemma UninterruptedCallSettles(s: State, t: nat, kind: Kind)
    requires Inv(s) && s.lock.None? && t > 0 && PcOf(s, t).Idle?
    ensures Enabled(s, Call(t, kind))
    ensures var s1 := Next(s, Call(t, kind));
      Enabled(s1, Lock(t)) &&
      var s2 := Next(s1, Lock(t));
      Enabled(s2, Test(t)) &&
      var s3 := Next(s2, Test(t));
      Enabled(s3, Unlock(t)) &&
      var s4 := Next(s3, Unlock(t));
      s4.settled && s4.lock.None? &&
      if s.settled then s4.started == s.started && s4.first == s.first && PcOf(s4, t).Idle?
      else
        s4.first == Some((t, kind)) && Enabled(s4, Start(t)) &&
        var s5 := Next(s4, Start(t));
        s5.started == s.started + [kind] && s5.settled && PcOf(s5, t).Idle?
  {
  }

  /** How many steps of its own the subscriber has left at most. */
  function Left(s: State): nat {
    match s.sub
    case Handling => 9
    case Asking(_) => 8
    case Reading(_) => 7
    case Answered(_, saw) => if saw then 1 else 6
    case Settling =>
      (match PcOf(s, 0)
       case Waiting(_) => 5
       case Checking(_) => 4
       case Claimed(_) => 3
       case Leaving => 2
       case Running(_) => 2
       case Idle => 1)
    case Done => 0
  }

  /** The subscriber's steps: what the handler's return starts, and goroutine 0's own. */
  predicate OfSubscriber(step: Step) {
    match step
    case Call(t, _) => t == 0
    case Lock(t) => t == 0
    case Test(t) => t == 0
    case Unlock(t) => t == 0
    case Start(t) => t == 0
    case _ => true
  }

  /** The subscriber finishes after at most nine steps of its own, whatever the others do
      in between, and does nothing more once it has seen the message settled. */
  lemma SubscriberFinishes(s: State, step: Step)
    requires Inv(s) && Enabled(s, step)
    ensures var s' := Next(s, step);
      && (if OfSubscriber(step) then Left(s') < Left(s) else Left(s') == Left(s))
      && (Left(s) == 0 <==> s.sub.Done?)
      && (s.sub.Answered? && s.sub.saw && OfSubscriber(step) ==> s'.sub.Done? && s'.pcs == s.pcs)
      && (step.AskRead? ==> s'.sub.Answered? && s'.sub.saw == s.settled)
  {
  }
}
