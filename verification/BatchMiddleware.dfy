/** The batching middleware: one backing array, appended to, handed to the batch handler
    and reused. Instants and durations are nanoseconds; 0 is Go's zero time. */
module BatchMiddleware {
  import opened Wrappers

  /** What the middleware owes and has paid: messages waiting, and the batches its
      handler has been given. */
  datatype Ledger<T> = Ledger(pending: seq<T>, lastFlush: int, delivered: seq<seq<T>>)

  /** A message with the reading taken before the flush decision and the one after a flush. */
  datatype Arrival<T> = Arrival(msg: T, now: int, flushed: int)

  function Step<T>(batchSize: nat, flushInterval: int, s: Ledger<T>, a: Arrival<T>): Ledger<T> {
    var batch := s.pending + [a.msg];
    if |batch| >= batchSize || a.now - s.lastFlush > flushInterval
    then Ledger([], a.flushed, s.delivered + [batch])
    else s.(pending := batch)
  }

  class Batcher<T(0)> {
    const batchSize: nat
    const flushInterval: int
    var backing: array<T>
    var length: nat
    var lastFlush: int
    var delivered: seq<seq<T>>

    ghost predicate Valid()
      reads this
    {
      length <= backing.Length
    }

    ghost function View(): Ledger<T>
      reads this, backing
      requires Valid()
    {
      Ledger(backing[..length], lastFlush, delivered)
    }

    /** A negative size makes the source panic. */
    constructor (batchSize: nat, flushInterval: int)
      ensures Valid() && fresh(backing) && this.batchSize == batchSize && this.flushInterval == flushInterval
      ensures View() == Ledger([], 0, [])
    {
      this.batchSize := batchSize;
      this.flushInterval := flushInterval;
      backing := new T[batchSize];
      length, lastFlush, delivered := 0, 0, [];
    }

    /** append: in place when there is room, else into a larger array. */
    method Append(msg: T)
      requires Valid()
      modifies this`backing, this`length, backing
      ensures Valid() && (backing == old(backing) || fresh(backing))
      ensures backing[..length] == old(backing[..length]) + [msg]
    {
      if length == backing.Length {
        var larger := new T[2 * length + 1];
        forall i | 0 <= i < length {
          larger[i] := backing[i];
        }
        backing := larger;
      }
      backing[length] := msg;
      length := length + 1;
    }

    /** The handler sees the slice as it is at the call; its error is passed on. */
    method Flush(now: int, handlerOk: bool) returns (ok: bool)
      requires Valid()
      modifies this`length, this`lastFlush, this`delivered
      ensures Valid() && ok == (handlerOk || old(length) == 0)
      ensures View() == if old(length) == 0 then old(View())
                        else Ledger([], now, old(delivered) + [old(backing[..length])])
    {
      if length == 0 {
        return true;
      }
      delivered := delivered + [backing[..length]];
      length := 0;
      lastFlush := now;
      return handlerOk;
    }

    method Handle(a: Arrival<T>, handlerOk: bool) returns (ok: bool)
      requires Valid()
      modifies this, backing
      ensures Valid() && (backing == old(backing) || fresh(backing))
      ensures View() == Step(batchSize, flushInterval, old(View()), a)
      ensures ok == (handlerOk || |delivered| == old(|delivered|))
    {
      Append(a.msg);
      if length >= batchSize || a.now - lastFlush > flushInterval {
        ok := Flush(a.flushed, handlerOk);
        return;
      }
      return true;
    }
  }

  // ----- runs

  function After<T>(batchSize: nat, flushInterval: int, s: Ledger<T>, arrivals: seq<Arrival<T>>): Ledger<T>
    decreases |arrivals|
  {
    if arrivals == [] then s
    else After(batchSize, flushInterval, Step(batchSize, flushInterval, s, arrivals[0]), arrivals[1..])
  }

  function Concat<T>(batches: seq<seq<T>>): seq<T> {
    if batches == [] then [] else batches[0] + Concat(batches[1..])
  }

  function Messages<T>(arrivals: seq<Arrival<T>>): seq<T> {
    if arrivals == [] then [] else [arrivals[0].msg] + Messages(arrivals[1..])
  }

  lemma {:induction false} ConcatSnoc<T>(batches: seq<seq<T>>, last: seq<T>)
    ensures Concat(batches + [last]) == Concat(batches) + last
  {
    if batches == [] {
      assert [last][1..] == [] && last + [] == last;
    } else {
      assert (batches + [last])[1..] == batches[1..] + [last];
      ConcatSnoc(batches[1..], last);
      assert batches[0] + (Concat(batches[1..]) + last) == (batches[0] + Concat(batches[1..])) + last;
    }
  }

  /** Every batch is nonempty and within the size, and what waits is below it. */
  predicate Bounded<T>(batchSize: nat, s: Ledger<T>) {
    && |s.pending| < MaxInt(batchSize, 1)
    && forall i :: 0 <= i < |s.delivered| ==> 0 < |s.delivered[i]| <= MaxInt(batchSize, 1)
  }

  lemma {:induction false} ConservedFrom<T>(batchSize: nat, flushInterval: int, s: Ledger<T>, arrivals: seq<Arrival<T>>)
    requires Bounded(batchSize, s)
    ensures var end := After(batchSize, flushInterval, s, arrivals);
      && Bounded(batchSize, end)
      && Concat(end.delivered) + end.pending == Concat(s.delivered) + s.pending + Messages(arrivals)
    decreases |arrivals|
  {
    if arrivals != [] {
      var a := arrivals[0];
      var s' := Step(batchSize, flushInterval, s, a);
      ConcatSnoc(s.delivered, s.pending + [a.msg]);
      ConservedFrom(batchSize, flushInterval, s', arrivals[1..]);
      assert Concat(s'.delivered) + s'.pending == Concat(s.delivered) + s.pending + [a.msg];
      assert (Concat(s.delivered) + s.pending + [a.msg]) + Messages(arrivals[1..])
          == Concat(s.delivered) + s.pending + ([a.msg] + Messages(arrivals[1..]));
    }
  }

  /** Over every run the batches handed over, followed by the pending one, are exactly
      the received messages in order; no batch is empty or larger than max(batchSize, 1),
      and fewer than that are pending. */
  lemma BatchesConserveMessages<T>(batchSize: nat, flushInterval: int, arrivals: seq<Arrival<T>>)
    ensures var end := After(batchSize, flushInterval, Ledger([], 0, []), arrivals);
      && Concat(end.delivered) + end.pending == Messages(arrivals)
      && Bounded(batchSize, end)
  {
    ConservedFrom(batchSize, flushInterval, Ledger([], 0, []), arrivals);
  }

  // ----- when batches are handed over

  lemma {:induction false} AfterSnoc<T>(batchSize: nat, flushInterval: int, s: Ledger<T>, arrivals: seq<Arrival<T>>,
                                        a: Arrival<T>)
    ensures After(batchSize, flushInterval, s, arrivals + [a])
         == Step(batchSize, flushInterval, After(batchSize, flushInterval, s, arrivals), a)
    decreases |arrivals|
  {
    if arrivals == [] {
      assert [] + [a] == [a] && [a][1..] == [];
    } else {
      assert (arrivals + [a])[0] == arrivals[0] && (arrivals + [a])[1..] == arrivals[1..] + [a];
      AfterSnoc(batchSize, flushInterval, Step(batchSize, flushInterval, s, arrivals[0]), arrivals[1..], a);
    }
  }

  lemma {:induction false} MessagesSnoc<T>(arrivals: seq<Arrival<T>>, a: Arrival<T>)
    ensures Messages(arrivals + [a]) == Messages(arrivals) + [a.msg]
  {
    if arrivals == [] {
      assert [] + [a] == [a] && [a][1..] == [];
    } else {
      assert (arrivals + [a])[0] == arrivals[0] && (arrivals + [a])[1..] == arrivals[1..] + [a];
      MessagesSnoc(arrivals[1..], a);
    }
  }

  /** The reading of the flush after the first n arrivals; 0 before any. */
  function FlushedAt<T>(arrivals: seq<Arrival<T>>, n: nat): int
    requires n <= |arrivals|
  {
    if n == 0 then 0 else arrivals[n - 1].flushed
  }

  /** With the last flush before arrival number from, arrival number i fills the batch or is late. */
  predicate Due<T>(batchSize: nat, flushInterval: int, arrivals: seq<Arrival<T>>, from: nat, i: nat)
    requires from <= i < |arrivals|
  {
    i + 1 - from >= batchSize || arrivals[i].now - FlushedAt(arrivals, from) > flushInterval
  }

  /** How many arrivals came before those that wait. */
  function Settled<T>(s: Ledger<T>, arrivals: seq<Arrival<T>>): int {
    |arrivals| - |s.pending|
  }

  /** What waits are the arrivals since the last flush, none of which was due. */
  ghost predicate Waits<T>(batchSize: nat, flushInterval: int, arrivals: seq<Arrival<T>>, s: Ledger<T>) {
    var from := Settled(s, arrivals);
    && from >= 0 && s.pending == Messages(arrivals[from..]) && s.lastFlush == FlushedAt(arrivals, from)
    && forall i :: from <= i < |arrivals| ==> !Due(batchSize, flushInterval, arrivals, from, i)
  }

  lemma {:induction false} MessagesCount<T>(arrivals: seq<Arrival<T>>)
    ensures |Messages(arrivals)| == |arrivals|
  {
    if arrivals != [] {
      MessagesCount(arrivals[1..]);
    }
  }

  lemma StepWaits<T>(batchSize: nat, flushInterval: int, arrivals: seq<Arrival<T>>, s: Ledger<T>, a: Arrival<T>)
    requires Waits(batchSize, flushInterval, arrivals, s)
    ensures var (all, from) := (arrivals + [a], Settled(s, arrivals));
      && s.pending + [a.msg] == Messages(all[from..])
      && (Due(batchSize, flushInterval, all, from, |arrivals|)
          <==> |s.pending| + 1 >= batchSize || a.now - s.lastFlush > flushInterval)
      && Waits(batchSize, flushInterval, all, Step(batchSize, flushInterval, s, a))
  {
    var all, from := arrivals + [a], Settled(s, arrivals);
    assert all[from..] == arrivals[from..] + [a];
    MessagesSnoc(arrivals[from..], a);
    var s' := Step(batchSize, flushInterval, s, a);
    if s'.pending != [] {
      forall i | from <= i < |all| ensures !Due(batchSize, flushInterval, all, from, i) {
        assert i < |arrivals| ==> !Due(batchSize, flushInterval, arrivals, from, i);
      }
    } else {
      assert all[|all|..] == [];
    }
  }

  lemma {:induction false} PendingSinceFlush<T>(batchSize: nat, flushInterval: int, arrivals: seq<Arrival<T>>)
    ensures Waits(batchSize, flushInterval, arrivals, After(batchSize, flushInterval, Ledger([], 0, []), arrivals))
    decreases |arrivals|
  {
    if arrivals == [] {
      assert arrivals[0..] == [];
    } else {
      hide Waits, Step;
      var before, a := arrivals[..|arrivals| - 1], arrivals[|arrivals| - 1];
      assert arrivals == before + [a];
      PendingSinceFlush(batchSize, flushInterval, before);
      StepWaits(batchSize, flushInterval, before, After(batchSize, flushInterval, Ledger([], 0, []), before), a);
      AfterSnoc(batchSize, flushInterval, Ledger([], 0, []), before, a);
    }
  }

  /** After every run, the next arrival hands over all that came since the last flush exactly
      when that is a full batch or the interval has passed since then; otherwise it waits. */
  lemma FlushesWhenDue<T>(batchSize: nat, flushInterval: int, arrivals: seq<Arrival<T>>, a: Arrival<T>)
    ensures var (all, s) := (arrivals + [a], After(batchSize, flushInterval, Ledger([], 0, []), arrivals));
      var s' := After(batchSize, flushInterval, Ledger([], 0, []), all);
      var from := Settled(s, arrivals);
      && 0 <= from
      && s.lastFlush == FlushedAt(arrivals, from)
      && if Due(batchSize, flushInterval, all, from, |arrivals|)
         then s' == Ledger([], a.flushed, s.delivered + [Messages(all[from..])])
         else s' == Ledger(Messages(all[from..]), s.lastFlush, s.delivered)
  {
    var s := After(batchSize, flushInterval, Ledger([], 0, []), arrivals);
    PendingSinceFlush(batchSize, flushInterval, arrivals);
    StepWaits(batchSize, flushInterval, arrivals, s, a);
    AfterSnoc(batchSize, flushInterval, Ledger([], 0, []), arrivals, a);
  }

  /** Nothing that waits is overdue: fewer messages than the batch size, the last of them
      within the interval after the last flush. */
  lemma NothingOverdue<T>(batchSize: nat, flushInterval: int, arrivals: seq<Arrival<T>>)
    ensures var s := After(batchSize, flushInterval, Ledger([], 0, []), arrivals);
      s.pending != [] ==>
        && arrivals != [] && |s.pending| < batchSize
        && arrivals[|arrivals| - 1].now - s.lastFlush <= flushInterval
  {
    var s := After(batchSize, flushInterval, Ledger([], 0, []), arrivals);
    PendingSinceFlush(batchSize, flushInterval, arrivals);
    if s.pending != [] {
      MessagesCount(arrivals[Settled(s, arrivals)..]);
      assert !Due(batchSize, flushInterval, arrivals, Settled(s, arrivals), |arrivals| - 1);
    }
  }
}
