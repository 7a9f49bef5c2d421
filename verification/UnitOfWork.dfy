/** Unit of work over a database: nested transaction calls share one transaction and one
    queue of hooks to run after its commit. A callback or a hook is taken as the tree of
    calls it makes, on any context it can reach, with the error it finally returns. */
module UnitOfWork {
  import opened Wrappers

  /** How the database treats a transaction opened by a call. */
  datatype Database = Database(begins: bool, commits: bool)

  datatype Callback = Callback(body: seq<Command>, fails: bool)

  datatype Hook = Hook(id: int, body: seq<Command>, fails: bool)

  /** ctx picks one of the contexts in reach: 0 is the one the callback or hook was given,
      higher ones are those of the enclosing callbacks, and past the last there is no
      transaction. WithTx stands for calls on a context made from a transaction that
      somebody else commits. */
  datatype Command =
    | Within(ctx: nat, hasDb: bool, fn: Option<Callback>, db: Database)
    | AfterCommit(ctx: nat, hook: Option<Hook>)
    | WithTx(body: seq<Command>)

  /** Transactions are numbered in the order they begin. */
  datatype Event =
    | BeginFailed
    | Began(t: nat)
    | Adopted(t: nat)
    | Queued(t: nat, id: int)
    | RolledBack(t: nat)
    | CommitFailed(t: nat)
    | Committed(t: nat)
    | Ran(t: nat, id: int, fails: bool)

  datatype Error = Unavailable | TransactionRequired | CallbackFailed | NotBegun | NotCommitted

  /** The transaction of every context in reach. */
  type Env = seq<Option<nat>>

  /** A hook with the contexts it was registered under. */
  datatype Closure = Closure(hook: Hook, env: Env)

  /** The queue of every transaction so far. */
  type Queues = seq<seq<Closure>>

  // ----- sizes

  ghost function Size(body: seq<Command>): nat
    decreases body
  {
    if body == [] then 0 else CommandSize(body[0]) + Size(body[1..])
  }

  ghost function CommandSize(cmd: Command): (n: nat)
    ensures n > 0
    decreases cmd
  {
    match cmd
    case Within(_, _, Some(fn), _) => 1 + Size(fn.body)
    case AfterCommit(_, Some(hook)) => 1 + Size(hook.body)
    case WithTx(body) => 1 + Size(body)
    case _ => 1
  }

  // ----- what the calls do

  function At(env: Env, ctx: nat): Option<nat> {
    if ctx < |env| then env[ctx] else None
  }

  predicate Reaches(env: Env, n: nat) {
    forall i :: 0 <= i < |env| && env[i].Some? ==> env[i].value < n
  }

  ghost predicate Sound(queues: Queues) {
    forall t, i :: 0 <= t < |queues| && 0 <= i < |queues[t]| ==> Reaches(queues[t][i].env, |queues|)
  }

  function Length(queues: Queues, t: nat): nat {
    if t < |queues| then |queues[t]| else 0
  }

  /** Queues only get longer, and only by hooks smaller than n. */
  ghost predicate Grows(queues: Queues, queues': Queues, n: nat) {
    && |queues| <= |queues'|
    && (forall t :: 0 <= t < |queues| ==> queues[t] <= queues'[t])
    && (forall t, i :: 0 <= t < |queues'| && Length(queues, t) <= i < |queues'[t]|
          ==> Size(queues'[t][i].hook.body) < n)
  }

  lemma GrowsTwice(q0: Queues, q1: Queues, q2: Queues, m: nat, n: nat, bound: nat)
    requires Grows(q0, q1, m) && Grows(q1, q2, n) && m <= bound && n <= bound
    ensures Grows(q0, q2, bound)
  {
    forall t | 0 <= t < |q0| ensures q0[t] <= q2[t] {
      assert q0[t] <= q1[t] <= q2[t];
    }
    forall t, i | 0 <= t < |q2| && Length(q0, t) <= i < |q2[t]|
      ensures Size(q2[t][i].hook.body) < bound
    {
      if i < Length(q1, t) {
        assert q2[t][i] == q1[t][i];
      }
    }
  }

  /** A callback's commands one after the other: the queues afterwards, and what happened
      meanwhile. */
  function RunBody(queues: Queues, env: Env, body: seq<Command>): (r: (Queues, seq<Event>))
    requires Sound(queues) && Reaches(env, |queues|)
    ensures Sound(r.0) && Grows(queues, r.0, Size(body))
    decreases Size(body), 1
  {
    if body == [] then (queues, [])
    else
      var (queues', events) := RunCommand(queues, env, body[0]);
      var (queues'', rest) := RunBody(queues', env, body[1..]);
      GrowsTwice(queues, queues', queues'', CommandSize(body[0]), Size(body[1..]), Size(body));
      (queues'', events + rest)
  }

  function RunCommand(queues: Queues, env: Env, cmd: Command): (r: (Queues, seq<Event>))
    requires Sound(queues) && Reaches(env, |queues|)
    ensures Sound(r.0) && Grows(queues, r.0, CommandSize(cmd))
    decreases CommandSize(cmd), 0
  {
    match cmd
    case AfterCommit(ctx, hook) =>
      var tx := At(env, ctx);
      if hook.None? || tx.None? then (queues, [])
      else (Enqueue(queues, tx.value, Closure(hook.value, env)), [Queued(tx.value, hook.value.id)])
    case Within(ctx, hasDb, fn, db) =>
      if fn.None? || !hasDb then (queues, [])
      else if At(env, ctx).Some? then RunBody(queues, [At(env, ctx)] + env, fn.value.body)
      else RunTransaction(queues, env, fn.value, db)
    case WithTx(body) =>
      var t := |queues|;
      var (queues', events) := RunBody(queues + [[]], [Some(t)] + env, body);
      Opens(queues, queues', Size(body));
      (queues', [Adopted(t)] + events)
  }

  function Enqueue(queues: Queues, t: nat, c: Closure): (queues': Queues)
    requires t < |queues| && Sound(queues) && Reaches(c.env, |queues|)
    ensures Sound(queues') && Grows(queues, queues', 1 + Size(c.hook.body))
  {
    queues[t := queues[t] + [c]]
  }

  lemma Opens(queues: Queues, queues': Queues, n: nat)
    requires Grows(queues + [[]], queues', n)
    ensures Grows(queues, queues', n)
    ensures Grows(queues, queues', n + 1)
  {
    forall t | 0 <= t < |queues| ensures queues[t] <= queues'[t] {
      assert (queues + [[]])[t] == queues[t];
    }
    forall t: nat ensures Length(queues + [[]], t) == Length(queues, t) {
    }
  }

  function RunTransaction(queues: Queues, env: Env, fn: Callback, db: Database): (r: (Queues, seq<Event>))
    requires Sound(queues) && Reaches(env, |queues|)
    ensures Sound(r.0) && Grows(queues, r.0, 1 + Size(fn.body))
    decreases Size(fn.body), 3
  {
    if !db.begins then (queues, [BeginFailed])
    else
      var t := |queues|;
      var (queues', events) := RunBody(queues + [[]], [Some(t)] + env, fn.body);
      Opens(queues, queues', Size(fn.body));
      if fn.fails then (queues', [Began(t)] + events + [RolledBack(t)])
      else if !db.commits then (queues', [Began(t)] + events + [CommitFailed(t)])
      else
        var (queues'', runs) := RunQueue(queues', t, queues'[t], Size(fn.body));
        GrowsTwice(queues, queues', queues'', Size(fn.body), Size(fn.body), 1 + Size(fn.body));
        (queues'', [Began(t)] + events + [Committed(t)] + runs)
  }

  ghost predicate Ready(hooks: seq<Closure>, n: nat, bound: nat) {
    forall i :: 0 <= i < |hooks| ==> Reaches(hooks[i].env, n) && Size(hooks[i].hook.body) < bound
  }

  lemma ReadyAfter(hooks: seq<Closure>, n: nat, m: nat, bound: nat)
    requires hooks != [] && Ready(hooks, n, bound) && n <= m
    ensures Reaches([None] + hooks[0].env, n) && Size(hooks[0].hook.body) < bound
    ensures Ready(hooks[1..], m, bound)
  {
    var env := [None] + hooks[0].env;
    forall i | 0 <= i < |env| && env[i].Some? ensures env[i].value < n {
      assert env[i] == hooks[0].env[i - 1];
    }
    forall i | 0 <= i < |hooks| - 1
      ensures Reaches(hooks[1..][i].env, m) && Size(hooks[1..][i].hook.body) < bound
    {
      assert Reaches(hooks[i + 1].env, n);
    }
  }

  /** Each hook of the list in turn, whatever the ones before it return, on the context
      that the transaction call was given, which has no transaction. */
  function RunQueue(queues: Queues, t: nat, hooks: seq<Closure>, ghost bound: nat): (r: (Queues, seq<Event>))
    requires Sound(queues) && Ready(hooks, |queues|, bound)
    ensures Sound(r.0) && Grows(queues, r.0, bound)
    decreases bound, 2, |hooks|
  {
    if hooks == [] then (queues, [])
    else
      var (hook, env) := (hooks[0].hook, hooks[0].env);
      ReadyAfter(hooks, |queues|, |queues|, bound);
      var (queues', events) := RunBody(queues, [None] + env, hook.body);
      ReadyAfter(hooks, |queues|, |queues'|, bound);
      var (queues'', rest) := RunQueue(queues', t, hooks[1..], bound);
      GrowsTwice(queues, queues', queues'', Size(hook.body), bound, bound);
      (queues'', [Ran(t, hook.id, hook.fails)] + events + rest)
  }

  // ----- the imperative form

  class TxState {
    var tx: bool
    var afterCommit: seq<Closure>

    constructor ()
      ensures !tx && afterCommit == []
    {
      tx, afterCommit := false, [];
    }
  }

  /** The states that contexts hold, each standing for the transaction of its number. */
  class World {
    var states: seq<TxState>
    var log: seq<Event>

    ghost function Pending(): (queues: Queues)
      reads this, states
      ensures |queues| == |states| && forall t :: 0 <= t < |queues| ==> queues[t] == states[t].afterCommit
    {
      seq(|states|, t requires 0 <= t < |states| reads this, states => states[t].afterCommit)
    }

    ghost predicate Valid()
      reads this, states
    {
      && (forall t, u :: 0 <= t < u < |states| ==> states[t] != states[u])
      && (forall t :: 0 <= t < |states| ==> states[t].tx)
      && Sound(Pending())
    }

    /** states extends what it was by new objects only. */
    twostate predicate Extends()
      reads this
    {
      old(states) <= states && forall t :: |old(states)| <= t < |states| ==> fresh(states[t])
    }

    constructor ()
      ensures Valid() && Pending() == [] && log == []
    {
      states, log := [], [];
    }

    method Note(e: Event)
      requires Valid()
      modifies this`log
      ensures Valid() && Pending() == old(Pending()) && log == old(log) + [e]
    {
      log := log + [e];
      assert Pending() == old(Pending());
    }

    /** The state of a new transaction becomes known to contexts. */
    method Enter(state: TxState, e: Event)
      requires Valid() && state !in states && state.afterCommit == []
      modifies this, state
      ensures Valid() && states == old(states) + [state]
      ensures Pending() == old(Pending()) + [[]] && log == old(log) + [e]
    {
      state.tx := true;
      states := states + [state];
      log := log + [e];
      assert Pending() == old(Pending()) + [[]];
    }
  }

  method RegisterAfterCommit(w: World, env: Env, ctx: nat, hook: Option<Hook>) returns (r: Result<(), Error>)
    requires w.Valid() && Reaches(env, |w.states|)
    modifies w, w.states
    ensures w.Valid() && w.states == old(w.states)
    ensures r == if hook.Some? && At(env, ctx).None? then Err(TransactionRequired) else Ok(())
    ensures hook.None? || r.Err? ==> w.Pending() == old(w.Pending()) && w.log == old(w.log)
    ensures hook.Some? && r.Ok? ==>
      var t := At(env, ctx).value;
      && w.Pending() == old(w.Pending())[t := old(w.Pending())[t] + [Closure(hook.value, env)]]
      && w.log == old(w.log) + [Queued(t, hook.value.id)]
  {
    if hook.None? {
      return Ok(());
    }
    var tx := At(env, ctx);
    if tx.None? || !w.states[tx.value].tx {
      return Err(TransactionRequired);
    }
    ghost var queues := Enqueue(w.Pending(), tx.value, Closure(hook.value, env));
    var state := w.states[tx.value];
    state.afterCommit := state.afterCommit + [Closure(hook.value, env)];
    w.Note(Queued(tx.value, hook.value.id));
    assert w.Pending() == queues;
    return Ok(());
  }

  /** The callback's commands, one after the other. */
  method Execute(w: World, env: Env, body: seq<Command>)
    requires w.Valid() && Reaches(env, |w.states|)
    modifies w, w.states
    ensures w.Valid() && w.Extends()
    ensures var (queues, events) := RunBody(old(w.Pending()), env, body);
      w.Pending() == queues && w.log == old(w.log) + events
    decreases Size(body), 2
  {
    hide Sound, Grows, RunCommand;
    if body == [] {
      return;
    }
    ExecuteOne(w, env, body[0]);
    Execute(w, env, body[1..]);
  }

  method ExecuteOne(w: World, env: Env, cmd: Command)
    requires w.Valid() && Reaches(env, |w.states|)
    modifies w, w.states
    ensures w.Valid() && w.Extends()
    ensures var (queues, events) := RunCommand(old(w.Pending()), env, cmd);
      w.Pending() == queues && w.log == old(w.log) + events
    decreases CommandSize(cmd), 1
  {
    hide Sound, Grows, RunBody, RunTransaction;
    match cmd {
      case AfterCommit(ctx, hook) =>
        var _ := RegisterAfterCommit(w, env, ctx, hook);
      case Within(ctx, hasDb, fn, db) =>
        var _ := WithinTransaction(w, env, ctx, hasDb, fn, db);
      case WithTx(body) =>
        var state := new TxState();
        var t := |w.states|;
        w.Enter(state, Adopted(t));
        Execute(w, [Some(t)] + env, body);
    }
  }

  method WithinTransaction(w: World, env: Env, ctx: nat, hasDb: bool, fn: Option<Callback>, db: Database)
    returns (r: Result<(), Error>)
    requires w.Valid() && Reaches(env, |w.states|)
    modifies w, w.states
    ensures w.Valid() && w.Extends()
    ensures r ==
      if fn.None? then Ok(())
      else if !hasDb then Err(Unavailable)
      else if At(env, ctx).None? && !db.begins then Err(NotBegun)
      else if fn.value.fails then Err(CallbackFailed)
      else if At(env, ctx).None? && !db.commits then Err(NotCommitted) else Ok(())
    ensures var (queues, events) :=
        if fn.None? || !hasDb then (old(w.Pending()), [])
        else if At(env, ctx).Some? then RunBody(old(w.Pending()), [At(env, ctx)] + env, fn.value.body)
        else RunTransaction(old(w.Pending()), env, fn.value, db);
      w.Pending() == queues && w.log == old(w.log) + events
    decreases if fn.Some? then 1 + Size(fn.value.body) else 0, 0, 1
  {
    hide Sound, Grows, Ready, RunBody, RunQueue;
    if fn.None? {
      return Ok(());
    }
    if !hasDb {
      return Err(Unavailable);
    }
    var tx := At(env, ctx);
    if tx.Some? && w.states[tx.value].tx {
      Execute(w, [tx] + env, fn.value.body);
      return if fn.value.fails then Err(CallbackFailed) else Ok(());
    }

    var t;
    r, t := Transaction(w, env, fn.value, db);
    if r.Err? {
      return;
    }
    NewQueueIsReady(old(w.Pending()), env, fn.value.body);
    RunHooks(w, t, Size(fn.value.body));
    return Ok(());
  }

  lemma NewQueueIsReady(queues: Queues, env: Env, body: seq<Command>)
    requires Sound(queues) && Reaches(env, |queues|)
    ensures var t := |queues|;
      var queues' := RunBody(queues + [[]], [Some(t)] + env, body).0;
      t < |queues'| && Ready(queues'[t], |queues'|, Size(body))
  {
  }

  lemma ReachesNew(env: Env, t: nat)
    requires Reaches(env, t)
    ensures Reaches([Some(t)] + env, t + 1)
  {
  }

  /** The database's part: begin, run the callback on the new context, and commit or roll back. */
  method Transaction(w: World, env: Env, fn: Callback, db: Database) returns (r: Result<(), Error>, t: nat)
    requires w.Valid() && Reaches(env, |w.states|)
    modifies w, w.states
    ensures w.Valid() && w.Extends() && t == |old(w.states)|
    ensures r == if !db.begins then Err(NotBegun)
                 else if fn.fails then Err(CallbackFailed)
                 else if !db.commits then Err(NotCommitted) else Ok(())
    ensures !db.begins ==> w.Pending() == old(w.Pending()) && w.log == old(w.log) + [BeginFailed]
    ensures db.begins ==>
      var (queues, events) := RunBody(old(w.Pending()) + [[]], [Some(t)] + env, fn.body);
      var end := if fn.fails then RolledBack(t) else if !db.commits then CommitFailed(t) else Committed(t);
      w.Pending() == queues && w.log == old(w.log) + ([Began(t)] + events + [end])
    decreases 1 + Size(fn.body), 0, 0
  {
    hide Sound, Grows, RunBody;
    var state := new TxState();
    t := |w.states|;
    if !db.begins {
      w.Note(BeginFailed);
      return Err(NotBegun), t;
    }
    w.Enter(state, Began(t));
    ReachesNew(env, t);
    hide Reaches;
    Execute(w, [Some(t)] + env, fn.body);
    ghost var events := RunBody(old(w.Pending()) + [[]], [Some(t)] + env, fn.body).1;
    Assoc(old(w.log), [Began(t)], events);
    var end;
    if fn.fails {
      end, r := RolledBack(t), Err(CallbackFailed);
    } else if !db.commits {
      end, r := CommitFailed(t), Err(NotCommitted);
    } else {
      end, r := Committed(t), Ok(());
    }
    w.Note(end);
    Assoc(old(w.log), [Began(t)] + events, [end]);
  }

  /** The loop over the queue, which is read once: a hook registered meanwhile waits for ever. */
  method RunHooks(w: World, t: nat, ghost bound: nat)
    requires w.Valid() && t < |w.states| && Ready(w.states[t].afterCommit, |w.states|, bound)
    modifies w, w.states
    ensures w.Valid() && w.Extends()
    ensures var (queues, events) := RunQueue(old(w.Pending()), t, old(w.states[t].afterCommit), bound);
      w.Pending() == queues && w.log == old(w.log) + events
    decreases bound, 3
  {
    hide Sound, Grows, Ready, Reaches, RunBody, RunQueue;
    var hooks := w.states[t].afterCommit;
    assert hooks[0..] == hooks;
    ghost var all := RunQueue(w.Pending(), t, hooks, bound);
    ghost var done: seq<Event> := [];
    assert [] + all.1 == all.1;
    for i := 0 to |hooks|
      invariant w.Valid() && w.Extends() && Ready(hooks[i..], |w.states|, bound)
      invariant w.log == old(w.log) + done
      invariant var (queues, rest) := RunQueue(w.Pending(), t, hooks[i..], bound);
        queues == all.0 && done + rest == all.1
    {
      var hook, env := hooks[i].hook, hooks[i].env;
      QueueUnfolds(w.Pending(), t, hooks, i, bound);
      ghost var (queues, events) := RunBody(w.Pending(), [None] + env, hook.body);
      ghost var rest := RunQueue(queues, t, hooks[i + 1..], bound).1;
      assert done + ([Ran(t, hook.id, hook.fails)] + events + rest)
          == (done + ([Ran(t, hook.id, hook.fails)] + events)) + rest;
      w.Note(Ran(t, hook.id, hook.fails));
      Execute(w, [None] + env, hook.body);
      assert old(w.log) + done + [Ran(t, hook.id, hook.fails)] + events
          == old(w.log) + (done + ([Ran(t, hook.id, hook.fails)] + events));
      done := done + ([Ran(t, hook.id, hook.fails)] + events);
    }
    NothingQueued(w.Pending(), t, bound);
    assert hooks[|hooks|..] == [] && done + [] == done;
  }

  lemma NothingQueued(queues: Queues, t: nat, bound: nat)
    requires Sound(queues)
    ensures RunQueue(queues, t, [], bound) == (queues, [])
  {
  }

  lemma QueueUnfolds(queues: Queues, t: nat, hooks: seq<Closure>, i: nat, bound: nat)
    requires i < |hooks| && Sound(queues) && Ready(hooks[i..], |queues|, bound)
    ensures var (hook, env) := (hooks[i].hook, hooks[i].env);
      && Reaches([None] + env, |queues|) && Size(hook.body) < bound
      && var (queues', events) := RunBody(queues, [None] + env, hook.body);
         && Ready(hooks[i + 1..], |queues'|, bound)
         && var (queues'', rest) := RunQueue(queues', t, hooks[i + 1..], bound);
            RunQueue(queues, t, hooks[i..], bound) == (queues'', [Ran(t, hook.id, hook.fails)] + events + rest)
  {
    hide Sound;
    ReadyAfter(hooks[i..], |queues|, |queues|, bound);
    assert hooks[i..][1..] == hooks[i + 1..];
    var queues' := RunBody(queues, [None] + hooks[i].env, hooks[i].hook.body).0;
    ReadyAfter(hooks[i..], |queues|, |queues'|, bound);
  }

  // ----- one transaction watched through a run

  /** A transaction not begun, begun and holding these hooks, over with these hooks left
      to run, or somebody else's. Bad is what must never happen. */
  datatype Status = Idle | Open(queue: seq<int>) | Over(left: seq<int>) | Foreign | Bad

  /** Hooks queued after the end, and on a foreign transaction, are accepted and forgotten. */
  function Track(s: Status, t: nat, e: Event): Status {
    match (s, e)
    case (_, BeginFailed) => s
    case (Idle, Began(u)) => if u == t then Open([]) else s
    case (Idle, Adopted(u)) => if u == t then Foreign else s
    case (Open(queue), Queued(u, id)) => if u == t then Open(queue + [id]) else s
    case (Open(queue), Committed(u)) => if u == t then Over(queue) else s
    case (Open(_), RolledBack(u)) => if u == t then Over([]) else s
    case (Open(_), CommitFailed(u)) => if u == t then Over([]) else s
    case (Over(left), Ran(u, id, _)) =>
      if u != t then s else if left != [] && left[0] == id then Over(left[1..]) else Bad
    case (Over(_), Queued(_, _)) => s
    case (Foreign, Queued(_, _)) => s
    case _ => if e.t == t then Bad else s
  }

  function TrackAll(s: Status, t: nat, events: seq<Event>): Status
    decreases |events|
  {
    if events == [] then s else TrackAll(Track(s, t, events[0]), t, events[1..])
  }

  lemma {:induction false} TrackSplits(s: Status, t: nat, xs: seq<Event>, ys: seq<Event>)
    ensures TrackAll(s, t, xs + ys) == TrackAll(TrackAll(s, t, xs), t, ys)
    decreases |xs|
  {
    if xs == [] {
      assert xs + ys == ys;
    } else {
      assert (xs + ys)[0] == xs[0] && (xs + ys)[1..] == xs[1..] + ys;
      TrackSplits(Track(s, t, xs[0]), t, xs[1..], ys);
    }
  }

  lemma TrackOne(s: Status, t: nat, e: Event)
    ensures TrackAll(s, t, [e]) == Track(s, t, e)
  {
    assert [e][1..] == [];
  }

  function Ids(hooks: seq<Closure>): (ids: seq<int>)
    ensures |ids| == |hooks| && forall i :: 0 <= i < |ids| ==> ids[i] == hooks[i].hook.id
  {
    seq(|hooks|, i requires 0 <= i < |hooks| => hooks[i].hook.id)
  }

  /** What a stretch of a run does to one transaction: an open one stays open and holds
      what its queue holds, one that is over or foreign stays as it is, and one that begins
      here is over when the stretch ends, with no hook left to run. */
  ghost predicate TidyFor(t: nat, queues: Queues, queues': Queues, events: seq<Event>) {
    && |queues| <= |queues'|
    && if t < |queues| then
         && TrackAll(Open(Ids(queues[t])), t, events) == Open(Ids(queues'[t]))
         && (forall left :: TrackAll(Over(left), t, events) == Over(left))
         && TrackAll(Foreign, t, events) == Foreign
       else if t < |queues'| then TrackAll(Idle, t, events) in {Over([]), Foreign}
       else TrackAll(Idle, t, events) == Idle
  }

  ghost predicate Tidy(queues: Queues, queues': Queues, events: seq<Event>) {
    forall t: nat :: TidyFor(t, queues, queues', events)
  }

  lemma TidyNothing(queues: Queues)
    ensures Tidy(queues, queues, [])
  {
    forall t: nat ensures TidyFor(t, queues, queues, []) {
    }
  }

  lemma TidyTwice(q0: Queues, q1: Queues, q2: Queues, xs: seq<Event>, ys: seq<Event>)
    requires Tidy(q0, q1, xs) && Tidy(q1, q2, ys)
    ensures Tidy(q0, q2, xs + ys)
  {
    forall t: nat ensures TidyFor(t, q0, q2, xs + ys) {
      assert TidyFor(t, q0, q1, xs) && TidyFor(t, q1, q2, ys);
      forall s ensures TrackAll(s, t, xs + ys) == TrackAll(TrackAll(s, t, xs), t, ys) {
        TrackSplits(s, t, xs, ys);
      }
    }
  }

  /** The same but for t, which is over with hooks left to run before the stretch, and
      with others left after it. */
  ghost predicate TidyBut(t: nat, left: seq<int>, left': seq<int>, queues: Queues, queues': Queues,
                          events: seq<Event>) {
    && (forall u: nat :: u != t ==> TidyFor(u, queues, queues', events))
    && TrackAll(Over(left), t, events) == Over(left')
  }

  lemma {:induction false} BodyIsTidy(queues: Queues, env: Env, body: seq<Command>)
    requires Sound(queues) && Reaches(env, |queues|)
    ensures Tidy(queues, RunBody(queues, env, body).0, RunBody(queues, env, body).1)
    decreases Size(body), 1
  {
    if body == [] {
      TidyNothing(queues);
    } else {
      hide Tidy, Sound, Reaches;
      var (queues', events) := RunCommand(queues, env, body[0]);
      CommandIsTidy(queues, env, body[0]);
      BodyIsTidy(queues', env, body[1..]);
      var (queues'', rest) := RunBody(queues', env, body[1..]);
      TidyTwice(queues, queues', queues'', events, rest);
    }
  }

  lemma {:induction false} CommandIsTidy(queues: Queues, env: Env, cmd: Command)
    requires Sound(queues) && Reaches(env, |queues|)
    ensures Tidy(queues, RunCommand(queues, env, cmd).0, RunCommand(queues, env, cmd).1)
    decreases CommandSize(cmd), 0
  {
    match cmd
    case AfterCommit(ctx, hook) =>
      if hook.None? || At(env, ctx).None? {
        TidyNothing(queues);
      } else {
        EnqueueIsTidy(queues, At(env, ctx).value, Closure(hook.value, env));
      }
    case Within(ctx, hasDb, fn, db) =>
      if fn.None? || !hasDb {
        TidyNothing(queues);
      } else if At(env, ctx).Some? {
        BodyIsTidy(queues, [At(env, ctx)] + env, fn.value.body);
      } else {
        TransactionIsTidy(queues, env, fn.value, db);
      }
    case WithTx(body) =>
      BodyIsTidy(queues + [[]], [Some(|queues|)] + env, body);
      var (queues', events) := RunBody(queues + [[]], [Some(|queues|)] + env, body);
      Adopts(queues, queues', events);
  }

  lemma EnqueueIsTidy(queues: Queues, t: nat, c: Closure)
    requires t < |queues| && Sound(queues) && Reaches(c.env, |queues|)
    ensures Tidy(queues, Enqueue(queues, t, c), [Queued(t, c.hook.id)])
  {
    var e := Queued(t, c.hook.id);
    forall u: nat ensures TidyFor(u, queues, Enqueue(queues, t, c), [e]) {
      forall s ensures TrackAll(s, u, [e]) == Track(s, u, e) {
        TrackOne(s, u, e);
      }
      assert Ids(queues[t] + [c]) == Ids(queues[t]) + [c.hook.id];
    }
  }

  lemma Adopts(queues: Queues, queues': Queues, events: seq<Event>)
    requires Tidy(queues + [[]], queues', events)
    ensures Tidy(queues, queues', [Adopted(|queues|)] + events)
  {
    forall u: nat ensures TidyFor(u, queues, queues', [Adopted(|queues|)] + events) {
      assert TidyFor(u, queues + [[]], queues', events);
      assert ([Adopted(|queues|)] + events)[1..] == events;
    }
  }

  lemma {:induction false} TransactionIsTidy(queues: Queues, env: Env, fn: Callback, db: Database)
    requires Sound(queues) && Reaches(env, |queues|)
    ensures Tidy(queues, RunTransaction(queues, env, fn, db).0, RunTransaction(queues, env, fn, db).1)
    decreases Size(fn.body), 3
  {
    var t := |queues|;
    if !db.begins {
      assert [BeginFailed][1..] == [];
      forall u: nat ensures TidyFor(u, queues, queues, [BeginFailed]) {
      }
    } else {
      var (queues', events) := RunBody(queues + [[]], [Some(t)] + env, fn.body);
      BodyIsTidy(queues + [[]], [Some(t)] + env, fn.body);
      if fn.fails {
        Ends(queues, queues', events, RolledBack(t));
      } else if !db.commits {
        Ends(queues, queues', events, CommitFailed(t));
      } else {
        var (queues'', runs) := RunQueue(queues', t, queues'[t], Size(fn.body));
        HooksAreTidy(queues', t, queues'[t], Size(fn.body));
        Commits(queues, queues', queues'', events, runs);
      }
    }
  }

  lemma Ends(queues: Queues, queues': Queues, events: seq<Event>, end: Event)
    requires Tidy(queues + [[]], queues', events) && end in {RolledBack(|queues|), CommitFailed(|queues|)}
    ensures Tidy(queues, queues', [Began(|queues|)] + events + [end])
  {
    forall u: nat ensures TidyFor(u, queues, queues', [Began(|queues|)] + events + [end]) {
      assert TidyFor(u, queues + [[]], queues', events);
      Surrounded(u, Began(|queues|), events, end);
      assert Ids([]) == [];
    }
  }

  lemma Surrounded(t: nat, first: Event, events: seq<Event>, last: Event)
    ensures forall s :: TrackAll(s, t, [first] + events + [last])
                     == Track(TrackAll(Track(s, t, first), t, events), t, last)
  {
    forall s ensures TrackAll(s, t, [first] + events + [last])
                  == Track(TrackAll(Track(s, t, first), t, events), t, last)
    {
      TrackSplits(s, t, [first] + events, [last]);
      TrackSplits(s, t, [first], events);
      TrackOne(s, t, first);
      TrackOne(TrackAll(s, t, [first] + events), t, last);
    }
  }

  lemma Commits(queues: Queues, queues': Queues, queues'': Queues, events: seq<Event>, runs: seq<Event>)
    requires |queues| < |queues'| <= |queues''| && Tidy(queues + [[]], queues', events)
    requires TidyBut(|queues|, Ids(queues'[|queues|]), [], queues', queues'', runs)
    ensures Tidy(queues, queues'', [Began(|queues|)] + events + [Committed(|queues|)] + runs)
  {
    var t := |queues|;
    var start := [Began(t)] + events + [Committed(t)];
    hide TrackAll;
    forall u: nat ensures TidyFor(u, queues, queues'', start + runs) {
      assert TidyFor(u, queues + [[]], queues', events);
      Surrounded(u, Began(t), events, Committed(t));
      forall s ensures TrackAll(s, u, start + runs) == TrackAll(TrackAll(s, u, start), u, runs) {
        TrackSplits(s, u, start, runs);
      }
      assert Ids([]) == [];
      if u != t {
        assert TidyFor(u, queues', queues'', runs);
      }
    }
  }

  lemma OneHook(q0: Queues, q1: Queues, q2: Queues, t: nat, hook: Hook, left: seq<int>,
                events: seq<Event>, rest: seq<Event>)
    requires t < |q0| && Tidy(q0, q1, events) && TidyBut(t, left, [], q1, q2, rest) && |q1| <= |q2|
    ensures TidyBut(t, [hook.id] + left, [], q0, q2, [Ran(t, hook.id, hook.fails)] + events + rest)
  {
    var e := Ran(t, hook.id, hook.fails);
    hide TrackAll;
    FirstThen(t, e, events, rest);
    Cons(hook.id, left);
    assert TidyFor(t, q0, q1, events);
    forall u: nat | u != t ensures TidyFor(u, q0, q2, [e] + events + rest) {
      FirstThen(u, e, events, rest);
      assert TidyFor(u, q0, q1, events) && TidyFor(u, q1, q2, rest);
    }
  }

  lemma FirstThen(t: nat, e: Event, events: seq<Event>, rest: seq<Event>)
    ensures forall s :: TrackAll(s, t, [e] + events + rest) == TrackAll(TrackAll(Track(s, t, e), t, events), t, rest)
  {
    forall s ensures TrackAll(s, t, [e] + events + rest) == TrackAll(TrackAll(Track(s, t, e), t, events), t, rest) {
      TrackSplits(s, t, [e] + events, rest);
      TrackSplits(s, t, [e], events);
      TrackOne(s, t, e);
    }
  }

  lemma IdsUnfold(hooks: seq<Closure>)
    requires hooks != []
    ensures Ids(hooks) == [hooks[0].hook.id] + Ids(hooks[1..])
  {
  }

  lemma {:induction false} HooksAreTidy(queues: Queues, t: nat, hooks: seq<Closure>, bound: nat)
    requires Sound(queues) && Ready(hooks, |queues|, bound) && t < |queues|
    ensures TidyBut(t, Ids(hooks), [], queues, RunQueue(queues, t, hooks, bound).0, RunQueue(queues, t, hooks, bound).1)
    decreases bound, 2, |hooks|
  {
    if hooks == [] {
      TidyNothing(queues);
      assert Ids(hooks) == [];
    } else {
      hide Tidy, TidyBut, Sound, Reaches, Ready, Ids, RunBody;
      var (hook, env) := (hooks[0].hook, hooks[0].env);
      ReadyAfter(hooks, |queues|, |queues|, bound);
      var (queues', events) := RunBody(queues, [None] + env, hook.body);
      BodyIsTidy(queues, [None] + env, hook.body);
      ReadyAfter(hooks, |queues|, |queues'|, bound);
      HooksAreTidy(queues', t, hooks[1..], bound);
      var (queues'', rest) := RunQueue(queues', t, hooks[1..], bound);
      IdsUnfold(hooks);
      OneHook(queues, queues', queues'', t, hook, Ids(hooks[1..]), events, rest);
    }
  }

  // ----- what the watch means

  /** What happens to a transaction, queueing aside. */
  function Life(t: nat, events: seq<Event>): seq<Event> {
    if events == [] then [] else LifeIn(t, events[0]) + Life(t, events[1..])
  }

  function LifeIn(t: nat, e: Event): seq<Event> {
    if e.BeginFailed? || e.Queued? || e.t != t then [] else [e]
  }

  lemma LifeCons(t: nat, e: Event, rest: seq<Event>)
    ensures Life(t, [e] + rest) == LifeIn(t, e) + Life(t, rest)
  {
    Cons(e, rest);
  }

  lemma {:induction false} LifeSplits(t: nat, xs: seq<Event>, ys: seq<Event>)
    ensures Life(t, xs + ys) == Life(t, xs) + Life(t, ys)
  {
    if xs == [] {
      EmptySeq(ys);
      EmptySeq(Life(t, ys));
    } else {
      hide Life, LifeIn;
      var e, rest := xs[0], xs[1..];
      Uncons(xs);
      Assoc([e], rest, ys);
      Assoc(LifeIn(t, e), Life(t, rest), Life(t, ys));
      LifeCons(t, e, rest);
      LifeCons(t, e, rest + ys);
      LifeSplits(t, rest, ys);
    }
  }

  /** The hooks queued on a transaction before it commits. */
  function Hooks(t: nat, events: seq<Event>): seq<int> {
    if events == [] || events[0] == Committed(t) then []
    else
      var e := events[0];
      (if e.Queued? && e.t == t then [e.id] else []) + Hooks(t, events[1..])
  }

  /** These hooks were run for t, one after the other. */
  predicate RanAll(t: nat, runs: seq<Event>, ids: seq<int>) {
    && |runs| == |ids|
    && forall i :: 0 <= i < |runs| ==> runs[i].Ran? && runs[i].t == t && runs[i].id == ids[i]
  }

  predicate CommittedAndRan(t: nat, life: seq<Event>, ids: seq<int>) {
    life != [] && life[0] == Committed(t) && RanAll(t, life[1..], ids)
  }

  /** The transaction never began, is somebody else's, began and was given up, or began,
      committed, and then ran exactly the hooks queued before, in order. */
  predicate Lived(t: nat, events: seq<Event>) {
    var life := Life(t, events);
    || life == [] || life == [Adopted(t)]
    || life == [Began(t), RolledBack(t)] || life == [Began(t), CommitFailed(t)]
    || (life != [] && life[0] == Began(t) && CommittedAndRan(t, life[1..], Hooks(t, events)))
  }

  lemma {:induction false} BadIsForGood(t: nat, events: seq<Event>)
    ensures TrackAll(Bad, t, events) == Bad
  {
    if events != [] {
      BadIsForGood(t, events[1..]);
    }
  }

  lemma {:induction false} ForeignLife(t: nat, events: seq<Event>)
    requires TrackAll(Foreign, t, events) == Foreign
    ensures Life(t, events) == []
  {
    if events != [] {
      BadIsForGood(t, events[1..]);
      ForeignLife(t, events[1..]);
    }
  }

  lemma {:induction false} OverLife(t: nat, left: seq<int>, events: seq<Event>)
    requires TrackAll(Over(left), t, events) == Over([])
    ensures RanAll(t, Life(t, events), left)
    decreases |events|
  {
    if events != [] {
      hide RanAll, Life;
      var e, rest := events[0], events[1..];
      assert events == [e] + rest;
      BadIsForGood(t, rest);
      OverLife(t, Track(Over(left), t, e).left, rest);
      OverGoesOn(t, left, e, rest);
    } else {
      assert Life(t, events) == [];
    }
  }

  lemma OverGoesOn(t: nat, left: seq<int>, e: Event, rest: seq<Event>)
    requires Track(Over(left), t, e).Over?
    requires RanAll(t, Life(t, rest), Track(Over(left), t, e).left)
    ensures RanAll(t, Life(t, [e] + rest), left)
  {
    hide Life;
    LifeCons(t, e, rest);
    assert e.Ran? && e.t == t ==> left == [left[0]] + left[1..];
  }

  predicate GivenUpOrRan(t: nat, life: seq<Event>, ids: seq<int>) {
    life == [RolledBack(t)] || life == [CommitFailed(t)] || CommittedAndRan(t, life, ids)
  }

  lemma EndLife(t: nat, queue: seq<int>, e: Event, rest: seq<Event>)
    requires Track(Open(queue), t, e).Over? && TrackAll(Track(Open(queue), t, e), t, rest) == Over([])
    ensures GivenUpOrRan(t, Life(t, [e] + rest), queue + Hooks(t, [e] + rest))
  {
    hide Life;
    OverLife(t, Track(Open(queue), t, e).left, rest);
    LifeCons(t, e, rest);
    Cons(e, rest);
    Cons(e, Life(t, rest));
    EmptySeq(queue);
  }

  lemma OpenGoesOn(t: nat, queue: seq<int>, e: Event, rest: seq<Event>)
    requires Track(Open(queue), t, e).Open?
    ensures Life(t, [e] + rest) == Life(t, rest)
    ensures Track(Open(queue), t, e).queue + Hooks(t, rest) == queue + Hooks(t, [e] + rest)
  {
    hide Life;
    LifeCons(t, e, rest);
    EmptySeq(Life(t, rest));
    Cons(e, rest);
    if e.Queued? {
      Assoc(queue, [e.id], Hooks(t, rest));
    }
    EmptySeq(Hooks(t, rest));
  }

  lemma {:induction false} OpenLife(t: nat, queue: seq<int>, events: seq<Event>)
    requires TrackAll(Open(queue), t, events) == Over([])
    ensures GivenUpOrRan(t, Life(t, events), queue + Hooks(t, events))
    decreases |events|
  {
    hide GivenUpOrRan;
    var e, rest := events[0], events[1..];
    var s := Track(Open(queue), t, e);
    assert events == [e] + rest;
    BadIsForGood(t, rest);
    if s.Over? {
      EndLife(t, queue, e, rest);
    } else {
      OpenGoesOn(t, queue, e, rest);
      OpenLife(t, s.queue, rest);
    }
  }

  lemma {:induction false} NeverIdleAgain(s: Status, t: nat, events: seq<Event>)
    requires !s.Idle?
    ensures !TrackAll(s, t, events).Idle? && (TrackAll(s, t, events).Foreign? ==> s.Foreign?)
    ensures s.Foreign? ==> TrackAll(s, t, events) in {Foreign, Bad}
    decreases |events|
  {
    if events != [] {
      BadIsForGood(t, events[1..]);
      NeverIdleAgain(Track(s, t, events[0]), t, events[1..]);
    }
  }

  lemma {:induction false} IdleLife(t: nat, events: seq<Event>)
    requires TrackAll(Idle, t, events) in {Idle, Over([]), Foreign}
    ensures Lived(t, events)
    decreases |events|
  {
    if events != [] {
      hide Lived, GivenUpOrRan, Life, Hooks;
      var e, rest := events[0], events[1..];
      assert events == [e] + rest;
      BadIsForGood(t, rest);
      NeverIdleAgain(Open([]), t, rest);
      NeverIdleAgain(Foreign, t, rest);
      var s := Track(Idle, t, e);
      if s.Foreign? {
        ForeignLife(t, rest);
      } else if s.Open? {
        OpenLife(t, [], rest);
        assert [] + Hooks(t, rest) == Hooks(t, rest);
      } else {
        IdleLife(t, rest);
      }
      LifeStarts(t, e, rest);
    }
  }

  lemma LifeStarts(t: nat, e: Event, rest: seq<Event>)
    ensures Track(Idle, t, e).Foreign? && Life(t, rest) == [] ==> Lived(t, [e] + rest)
    ensures Track(Idle, t, e).Open? && GivenUpOrRan(t, Life(t, rest), Hooks(t, rest)) ==> Lived(t, [e] + rest)
    ensures Track(Idle, t, e).Idle? && Lived(t, rest) ==> Lived(t, [e] + rest)
  {
    hide RanAll, Life;
    LifeCons(t, e, rest);
    Cons(e, rest);
    Cons(e, Life(t, rest));
    EmptySeq(Life(t, rest));
    EmptySeq(Hooks(t, rest));
  }

  /** In every program of nested calls, on whatever contexts and with whatever hooks, each
      transaction that begins ends exactly once; if it commits, exactly the hooks queued
      until then run afterwards, once, in order, whatever they return and do; if it is
      rolled back or fails to commit, none runs. */
  lemma EveryTransactionEnds(program: seq<Command>, t: nat)
    ensures Lived(t, RunBody([], [], program).1)
  {
    BodyIsTidy([], [], program);
    var (queues, events) := RunBody([], [], program);
    assert TidyFor(t, [], queues, events);
    IdleLife(t, events);
  }

  // ----- a tree that stays inside

  /** The hooks a body registers, also in the calls that join its transaction. */
  function Registered(body: seq<Command>): seq<Hook>
    decreases body
  {
    if body == [] then [] else RegisteredBy(body[0]) + Registered(body[1..])
  }

  function RegisteredBy(cmd: Command): seq<Hook>
    decreases cmd
  {
    match cmd
    case AfterCommit(_, Some(hook)) => [hook]
    case Within(_, true, Some(fn), _) => Registered(fn.body)
    case _ => []
  }

  /** No call at any depth uses a context outside the transaction, that is past the first
      depth, which are the body's own and those of the calls it has joined from. */
  predicate StaysInside(body: seq<Command>, depth: nat)
    decreases body
  {
    body == [] || (CommandStaysInside(body[0], depth) && StaysInside(body[1..], depth))
  }

  predicate CommandStaysInside(cmd: Command, depth: nat)
    decreases cmd
  {
    match cmd
    case Within(ctx, true, Some(fn), _) => ctx < depth && StaysInside(fn.body, depth + 1)
    case AfterCommit(ctx, Some(_)) => ctx < depth
    case WithTx(_) => false
    case _ => true
  }

  function HooksOf(closures: seq<Closure>): (hooks: seq<Hook>)
    ensures |hooks| == |closures| && forall i :: 0 <= i < |hooks| ==> hooks[i] == closures[i].hook
  {
    seq(|closures|, i requires 0 <= i < |closures| => closures[i].hook)
  }

  function Queueing(t: nat, hooks: seq<Hook>): (events: seq<Event>)
    ensures |events| == |hooks| && forall i :: 0 <= i < |events| ==> events[i] == Queued(t, hooks[i].id)
  {
    seq(|hooks|, i requires 0 <= i < |hooks| => Queued(t, hooks[i].id))
  }

  predicate Inside(env: Env, t: nat, depth: nat) {
    depth <= |env| && forall i :: 0 <= i < depth ==> env[i] == Some(t)
  }

  lemma {:induction false} InsideQueues(queues: Queues, env: Env, body: seq<Command>, t: nat, depth: nat)
    requires Sound(queues) && Reaches(env, |queues|) && t < |queues|
    requires Inside(env, t, depth) && StaysInside(body, depth)
    ensures var (queues', events) := RunBody(queues, env, body);
      HooksOf(queues'[t]) == HooksOf(queues[t]) + Registered(body) && events == Queueing(t, Registered(body))
    decreases body
  {
    if body != [] {
      hide *;
      BodyUnfolds(queues, env, body);
      StaysUnfolds(body, depth);
      var (queues', events) := RunCommand(queues, env, body[0]);
      InsideQueuesOne(queues, env, body[0], t, depth);
      InsideQueues(queues', env, body[1..], t, depth);
      var first, rest := RegisteredBy(body[0]), Registered(body[1..]);
      RegisteredUnfolds(body);
      QueueingSplits(t, first, rest);
      assert (HooksOf(queues[t]) + first) + rest == HooksOf(queues[t]) + (first + rest);
    }
  }

  lemma BodyUnfolds(queues: Queues, env: Env, body: seq<Command>)
    requires Sound(queues) && Reaches(env, |queues|) && body != []
    ensures var (queues', events) := RunCommand(queues, env, body[0]);
      && |queues| <= |queues'| && Sound(queues') && Reaches(env, |queues'|)
      && var (queues'', rest) := RunBody(queues', env, body[1..]);
         |queues'| <= |queues''| && RunBody(queues, env, body) == (queues'', events + rest)
  {
    hide Sound, RunCommand;
  }

  lemma StaysUnfolds(body: seq<Command>, depth: nat)
    requires body != [] && StaysInside(body, depth)
    ensures CommandStaysInside(body[0], depth) && StaysInside(body[1..], depth)
  {
  }

  lemma RegisteredUnfolds(body: seq<Command>)
    requires body != []
    ensures Registered(body) == RegisteredBy(body[0]) + Registered(body[1..])
  {
  }

  lemma QueueingSplits(t: nat, xs: seq<Hook>, ys: seq<Hook>)
    ensures Queueing(t, xs) + Queueing(t, ys) == Queueing(t, xs + ys)
  {
  }

  lemma {:induction false} InsideQueuesOne(queues: Queues, env: Env, cmd: Command, t: nat, depth: nat)
    requires Sound(queues) && Reaches(env, |queues|) && t < |queues|
    requires Inside(env, t, depth) && CommandStaysInside(cmd, depth)
    ensures var (queues', events) := RunCommand(queues, env, cmd);
      HooksOf(queues'[t]) == HooksOf(queues[t]) + RegisteredBy(cmd) && events == Queueing(t, RegisteredBy(cmd))
    decreases cmd
  {
    if cmd.Within? && cmd.hasDb && cmd.fn.Some? {
      hide HooksOf, Queueing, Sound, Grows, RunBody;
      InsideQueues(queues, [Some(t)] + env, cmd.fn.value.body, t, depth + 1);
    } else if cmd.AfterCommit? && cmd.hook.Some? {
      hide Sound, Grows;
      assert At(env, cmd.ctx) == Some(t);
    } else {
      EmptySeq(HooksOf(queues[t]));
    }
  }

  /** Each hook in turn, whatever the ones before it return. */
  function Runs(t: nat, hooks: seq<Hook>): (events: seq<Event>)
    ensures |events| == |hooks| && forall i :: 0 <= i < |events| ==> events[i] == Ran(t, hooks[i].id, hooks[i].fails)
  {
    seq(|hooks|, i requires 0 <= i < |hooks| => Ran(t, hooks[i].id, hooks[i].fails))
  }

  lemma {:induction false} QueueingIsNoLife(t: nat, hooks: seq<Hook>)
    ensures Life(t, Queueing(t, hooks)) == []
  {
    if hooks != [] {
      assert Queueing(t, hooks)[1..] == Queueing(t, hooks[1..]);
      QueueingIsNoLife(t, hooks[1..]);
    }
  }

  lemma {:induction false} HooksLife(queues: Queues, t: nat, hooks: seq<Closure>, bound: nat)
    requires Sound(queues) && Ready(hooks, |queues|, bound) && t < |queues|
    ensures Life(t, RunQueue(queues, t, hooks, bound).1) == Runs(t, HooksOf(hooks))
    decreases |hooks|
  {
    if hooks != [] {
      hide Sound, Reaches, Ready, Tidy, Grows, Life, Runs, HooksOf, RunBody;
      var (hook, env) := (hooks[0].hook, hooks[0].env);
      ReadyAfter(hooks, |queues|, |queues|, bound);
      var (queues', events) := RunBody(queues, [None] + env, hook.body);
      ReadyAfter(hooks, |queues|, |queues'|, bound);
      NoLifeInBody(queues, t, [None] + env, hook.body);
      HooksLife(queues', t, hooks[1..], bound);
      var (queues'', rest) := RunQueue(queues', t, hooks[1..], bound);
      RunLife(t, hook, events, rest);
      RunsUnfold(t, hooks);
    } else {
      assert Life(t, []) == [] == Runs(t, HooksOf(hooks));
    }
  }

  lemma RunLife(t: nat, hook: Hook, events: seq<Event>, rest: seq<Event>)
    requires Life(t, events) == []
    ensures var ran := Ran(t, hook.id, hook.fails);
      Life(t, [ran] + events + rest) == [ran] + Life(t, rest)
  {
    var ran := Ran(t, hook.id, hook.fails);
    hide Life;
    Assoc([ran], events, rest);
    EmptySeq(Life(t, rest));
    LifeCons(t, ran, events + rest);
    LifeSplits(t, events, rest);
  }

  lemma RunsUnfold(t: nat, hooks: seq<Closure>)
    requires hooks != []
    ensures Runs(t, HooksOf(hooks))
         == [Ran(t, hooks[0].hook.id, hooks[0].hook.fails)] + Runs(t, HooksOf(hooks[1..]))
  {
  }

  lemma NoLifeInBody(queues: Queues, t: nat, env: Env, body: seq<Command>)
    requires Sound(queues) && Reaches(env, |queues|) && t < |queues|
    ensures Life(t, RunBody(queues, env, body).1) == []
  {
    BodyIsTidy(queues, env, body);
    var (queues', events) := RunBody(queues, env, body);
    assert TidyFor(t, queues, queues', events);
    OverLife(t, [], events);
  }

  lemma SurroundedLife(t: nat, first: Event, events: seq<Event>, last: Event, rest: seq<Event>)
    requires Life(t, events) == [] && LifeIn(t, first) == [first] && LifeIn(t, last) == [last]
    ensures Life(t, [first] + events + [last]) == [first, last]
    ensures Life(t, [first] + events + [last] + rest) == [first, last] + Life(t, rest)
  {
    hide Life, LifeIn;
    LifeSplits(t, [first] + events + [last], rest);
    LifeSplits(t, [first] + events, [last]);
    LifeCons(t, first, events);
    LifeCons(t, last, []);
    NoLife(t);
    EmptySeq([first]);
    EmptySeq([last]);
    assert [first] + [last] == [first, last];
  }

  /** Whatever a callback does on whatever contexts: its transaction is rolled back exactly
      when the callback fails, and otherwise commits if the database lets it; after a commit
      exactly the hooks that are queued by then run, in order. */
  lemma TransactionLife(queues: Queues, env: Env, fn: Callback, db: Database)
    requires Sound(queues) && Reaches(env, |queues|)
    ensures !db.begins ==> RunTransaction(queues, env, fn, db) == (queues, [BeginFailed])
    ensures db.begins ==>
      var t := |queues|;
      var queued := RunBody(queues + [[]], [Some(t)] + env, fn.body).0;
      && t < |queued|
      && Life(t, RunTransaction(queues, env, fn, db).1) ==
         if fn.fails then [Began(t), RolledBack(t)]
         else if !db.commits then [Began(t), CommitFailed(t)]
         else [Began(t), Committed(t)] + Runs(t, HooksOf(queued[t]))
  {
    if db.begins {
      var t := |queues|;
      NewQueueIsReady(queues, env, fn.body);
      hide Runs, Life, HooksOf, RunBody, RunQueue, Grows, Ready, Reaches, Sound;
      ReachesNew(env, t);
      var (queues', events) := RunBody(queues + [[]], [Some(t)] + env, fn.body);
      NoLifeInBody(queues + [[]], t, [Some(t)] + env, fn.body);
      if fn.fails {
        SurroundedLife(t, Began(t), events, RolledBack(t), []);
      } else if !db.commits {
        SurroundedLife(t, Began(t), events, CommitFailed(t), []);
      } else {
        var runs := RunQueue(queues', t, queues'[t], Size(fn.body)).1;
        SurroundedLife(t, Began(t), events, Committed(t), runs);
        HooksLife(queues', t, queues'[t], Size(fn.body));
      }
    }
  }

  /** A tree of calls that stays inside, started where there is no transaction, opens
      exactly one transaction, and until it ends nothing happens but its own queueing; if it
      commits, every hook registered anywhere in the tree runs exactly once, in registration
      order; if it does not, none runs. */
  lemma OneTransaction(queues: Queues, env: Env, fn: Callback, db: Database)
    requires Sound(queues) && Reaches(env, |queues|) && StaysInside(fn.body, 1) && db.begins
    ensures var (t, hooks) := (|queues|, Registered(fn.body));
      var events := RunTransaction(queues, env, fn, db).1;
      var start := [Began(t)] + Queueing(t, hooks);
      if fn.fails then events == start + [RolledBack(t)]
      else if !db.commits then events == start + [CommitFailed(t)]
      else start + [Committed(t)] <= events && Life(t, events) == [Began(t), Committed(t)] + Runs(t, hooks)
  {
    hide Registered, Queueing, Runs, Life, HooksOf, RunBody, RunQueue, Sound, Reaches, StaysInside, Grows, Ready;
    var (t, hooks) := (|queues|, Registered(fn.body));
    InsideRuns(queues, env, fn);
    var (queues', events) := RunBody(queues + [[]], [Some(t)] + env, fn.body);
    NewQueueIsReady(queues, env, fn.body);
    if !fn.fails && db.commits {
      var runs := RunQueue(queues', t, queues'[t], Size(fn.body)).1;
      HooksLife(queues', t, queues'[t], Size(fn.body));
      CommittedLife(t, hooks, runs);
    }
  }

  lemma InsideRuns(queues: Queues, env: Env, fn: Callback)
    requires Sound(queues) && Reaches(env, |queues|) && StaysInside(fn.body, 1)
    ensures var (t, hooks) := (|queues|, Registered(fn.body));
      && Sound(queues + [[]]) && Reaches([Some(t)] + env, t + 1)
      && var (queues', events) := RunBody(queues + [[]], [Some(t)] + env, fn.body);
         t < |queues'| && events == Queueing(t, hooks) && HooksOf(queues'[t]) == hooks
  {
    hide Registered, Queueing, RunBody;
    InsideQueues(queues + [[]], [Some(|queues|)] + env, fn.body, |queues|, 1);
    assert HooksOf([]) == [];
    EmptySeq(Registered(fn.body));
  }

  lemma CommittedLife(t: nat, hooks: seq<Hook>, runs: seq<Event>)
    ensures var start := [Began(t)] + Queueing(t, hooks) + [Committed(t)];
      Life(t, start + runs) == [Began(t), Committed(t)] + Life(t, runs)
  {
    hide Life, Queueing;
    var queued := Queueing(t, hooks);
    QueueingIsNoLife(t, hooks);
    LifeSplits(t, [Began(t)] + queued + [Committed(t)], runs);
    LifeSplits(t, [Began(t)] + queued, [Committed(t)]);
    LifeCons(t, Began(t), queued);
    LifeCons(t, Committed(t), []);
    NoLife(t);
    EmptySeq([Began(t)]);
    EmptySeq([Committed(t)]);
    assert Life(t, [Began(t)] + queued) == [Began(t)] && Life(t, [Committed(t)]) == [Committed(t)];
  }

  lemma NoLife(t: nat)
    ensures Life(t, []) == []
  {
  }

  // ----- transactions out of reach

  /** New hooks have no way to reach t. */
  ghost predicate Unreached(t: nat, queues: Queues, queues': Queues) {
    forall u, i :: 0 <= u < |queues'| && Length(queues, u) <= i < |queues'[u]| ==> Some(t) !in queues'[u][i].env
  }

  /** The stretch leaves t alone. */
  ghost predicate Apart(t: nat, queues: Queues, queues': Queues, events: seq<Event>) {
    && t < |queues| <= |queues'| && queues'[t] == queues[t] && Unreached(t, queues, queues')
    && forall i :: 0 <= i < |events| ==> events[i].BeginFailed? || events[i].t != t
  }

  lemma ApartTwice(t: nat, q0: Queues, q1: Queues, q2: Queues, xs: seq<Event>, ys: seq<Event>, m: nat, n: nat)
    requires Apart(t, q0, q1, xs) && Apart(t, q1, q2, ys) && Grows(q0, q1, m) && Grows(q1, q2, n)
    ensures Apart(t, q0, q2, xs + ys)
  {
    forall u, i | 0 <= u < |q2| && Length(q0, u) <= i < |q2[u]|
      ensures Some(t) !in q2[u][i].env
    {
      if i < Length(q1, u) {
        assert q2[u][i] == q1[u][i];
      }
    }
  }

  /** Code that is given no context of a transaction leaves it alone: it queues nothing on
      it, does not end it and runs none of its hooks, nor does any hook it runs or queues. */
  lemma {:induction false} TransactionsAreSeparate(queues: Queues, env: Env, body: seq<Command>, t: nat)
    requires Sound(queues) && Reaches(env, |queues|) && t < |queues| && Some(t) !in env
    ensures Apart(t, queues, RunBody(queues, env, body).0, RunBody(queues, env, body).1)
    decreases Size(body), 1
  {
    if body != [] {
      hide Apart, Sound, Reaches, Grows;
      var (queues', events) := RunCommand(queues, env, body[0]);
      CommandIsApart(queues, env, body[0], t);
      assert |queues| <= |queues'| by {
        assert Apart(t, queues, queues', events);
      }
      TransactionsAreSeparate(queues', env, body[1..], t);
      var (queues'', rest) := RunBody(queues', env, body[1..]);
      ApartTwice(t, queues, queues', queues'', events, rest, CommandSize(body[0]), Size(body[1..]));
    }
  }

  lemma {:induction false} CommandIsApart(queues: Queues, env: Env, cmd: Command, t: nat)
    requires Sound(queues) && Reaches(env, |queues|) && t < |queues| && Some(t) !in env
    ensures Apart(t, queues, RunCommand(queues, env, cmd).0, RunCommand(queues, env, cmd).1)
    decreases CommandSize(cmd), 0
  {
    match cmd
    case AfterCommit(ctx, hook) =>
    case Within(ctx, hasDb, fn, db) =>
      if fn.Some? && hasDb {
        if At(env, ctx).Some? {
          TransactionsAreSeparate(queues, [At(env, ctx)] + env, fn.value.body, t);
        } else {
          TransactionIsApart(queues, env, fn.value, db, t);
        }
      }
    case WithTx(body) =>
      TransactionsAreSeparate(queues + [[]], [Some(|queues|)] + env, body, t);
      var (queues', events) := RunBody(queues + [[]], [Some(|queues|)] + env, body);
      ApartFromNew(t, queues, queues', events, Adopted(|queues|));
  }

  lemma ApartFromNew(t: nat, queues: Queues, queues': Queues, events: seq<Event>, e: Event)
    requires t < |queues| && Apart(t, queues + [[]], queues', events) && !e.BeginFailed? && e.t == |queues|
    ensures Apart(t, queues, queues', [e] + events)
    ensures Apart(t, queues, queues', [e] + events + [Committed(|queues|)])
    ensures Apart(t, queues, queues', [e] + events + [RolledBack(|queues|)])
    ensures Apart(t, queues, queues', [e] + events + [CommitFailed(|queues|)])
    ensures |queues| < |queues'| && forall i :: 0 <= i < |queues'[|queues|]| ==> Some(t) !in queues'[|queues|][i].env
  {
    forall u: nat ensures Length(queues + [[]], u) == Length(queues, u) {
    }
  }

  lemma {:induction false} TransactionIsApart(queues: Queues, env: Env, fn: Callback, db: Database, t: nat)
    requires Sound(queues) && Reaches(env, |queues|) && t < |queues| && Some(t) !in env
    ensures Apart(t, queues, RunTransaction(queues, env, fn, db).0, RunTransaction(queues, env, fn, db).1)
    decreases Size(fn.body), 3
  {
    if db.begins {
      var own := |queues|;
      var (queues', events) := RunBody(queues + [[]], [Some(own)] + env, fn.body);
      TransactionsAreSeparate(queues + [[]], [Some(own)] + env, fn.body, t);
      ApartFromNew(t, queues, queues', events, Began(own));
      Opens(queues, queues', Size(fn.body));
      if !fn.fails && db.commits {
        hide Apart, Grows, Reaches;
        var (queues'', runs) := RunQueue(queues', own, queues'[own], Size(fn.body));
        HooksAreApart(queues', own, queues'[own], Size(fn.body), t);
        ApartTwice(t, queues, queues', queues'', [Began(own)] + events + [Committed(own)], runs,
                   Size(fn.body), Size(fn.body));
      }
    }
  }

  lemma {:induction false} HooksAreApart(queues: Queues, own: nat, hooks: seq<Closure>, bound: nat, t: nat)
    requires Sound(queues) && Ready(hooks, |queues|, bound) && t < |queues| && own != t
    requires forall i :: 0 <= i < |hooks| ==> Some(t) !in hooks[i].env
    ensures Apart(t, queues, RunQueue(queues, own, hooks, bound).0, RunQueue(queues, own, hooks, bound).1)
    decreases bound, 2, |hooks|
  {
    if hooks != [] {
      hide Sound, Grows, Reaches;
      var (hook, env) := (hooks[0].hook, hooks[0].env);
      ReadyAfter(hooks, |queues|, |queues|, bound);
      var (queues', events) := RunBody(queues, [None] + env, hook.body);
      TransactionsAreSeparate(queues, [None] + env, hook.body, t);
      ReadyAfter(hooks, |queues|, |queues'|, bound);
      HooksAreApart(queues', own, hooks[1..], bound, t);
      var (queues'', rest) := RunQueue(queues', own, hooks[1..], bound);
      var ran := [Ran(own, hook.id, hook.fails)];
      assert Apart(t, queues, queues', ran + events);
      ApartTwice(t, queues, queues', queues'', ran + events, rest, Size(hook.body), bound);
    }
  }
}
