/** Trees of errors: what an aggregate says, matches, keeps when filtered and flattens to
    depends on its leaves alone. */
module ErrorAggregate {
  import opened Wrappers

  datatype Err = Leaf(id: int, msg: string) | Aggregate(errs: seq<Err>)

  /** Every aggregate in the tree is nonempty, as NewAggregate makes them. */
  predicate Built(e: Err) {
    e.Leaf? || (e.errs != [] && AllBuilt(e.errs))
  }

  predicate AllBuilt(errs: seq<Err>) {
    errs == [] || (Built(errs[0]) && AllBuilt(errs[1..]))
  }

  function LeavesOf(e: Err): seq<Err>
    decreases e
  {
    if e.Leaf? then [e] else Leaves(e.errs)
  }

  function Leaves(errs: seq<Err>): seq<Err>
    decreases errs
  {
    if errs == [] then [] else LeavesOf(errs[0]) + Leaves(errs[1..])
  }

  lemma {:induction false} LeavesSplit(xs: seq<Err>, ys: seq<Err>)
    ensures Leaves(xs + ys) == Leaves(xs) + Leaves(ys)
  {
    if xs == [] {
      assert xs + ys == ys;
    } else {
      assert (xs + ys)[0] == xs[0] && (xs + ys)[1..] == xs[1..] + ys;
      LeavesSplit(xs[1..], ys);
    }
  }

  // ----- NewAggregate

  function NonNil(list: seq<Option<Err>>): seq<Err> {
    if list == [] then []
    else (if list[0].Some? then [list[0].value] else []) + NonNil(list[1..])
  }

  function MakeAggregate(errs: seq<Err>): Option<Err> {
    if errs == [] then None else Some(Aggregate(errs))
  }

  method NewAggregate(list: seq<Option<Err>>) returns (r: Option<Err>)
    ensures r == MakeAggregate(NonNil(list))
  {
    if |list| == 0 {
      return None;
    }
    var errs: seq<Err> := [];
    for i := 0 to |list|
      invariant errs + NonNil(list[i..]) == NonNil(list)
    {
      if list[i].Some? {
        errs := errs + [list[i].value];
      }
    }
    assert errs + [] == errs && list[|list|..] == [];
    if |errs| == 0 {
      return None;
    }
    return Some(Aggregate(errs));
  }

  /** Nil entries vanish, wherever they stand, and what is left keeps its order. */
  lemma {:induction false} NonNilSplits(xs: seq<Option<Err>>, ys: seq<Option<Err>>)
    ensures NonNil(xs + ys) == NonNil(xs) + NonNil(ys)
  {
    if xs == [] {
      EmptySeq(ys);
      EmptySeq(NonNil(ys));
    } else {
      assert (xs + ys)[0] == xs[0] && (xs + ys)[1..] == xs[1..] + ys;
      NonNilSplits(xs[1..], ys);
    }
  }

  lemma NilEntriesVanish(before: seq<Option<Err>>, e: Err, after: seq<Option<Err>>)
    ensures NonNil(before + [None] + after) == NonNil(before + after)
    ensures NonNil(before + [Some(e)] + after) == NonNil(before) + [e] + NonNil(after)
    ensures MakeAggregate([]) == None && MakeAggregate(NonNil([Some(e)] + after)).Some?
  {
    var nil: seq<Option<Err>> := [None];
    NonNilSplits(before + nil, after);
    NonNilSplits(before, nil);
    NonNilSplits(before + [Some(e)], after);
    NonNilSplits(before, [Some(e)]);
    NonNilSplits(before, after);
    NonNilSplits([Some(e)], after);
    assert nil[1..] == [] && [Some(e)][1..] == [];
    EmptySeq(NonNil(before));
    EmptySeq([e]);
  }

  // ----- visit

  /** Fold a visitor over leaves in order, until it asks to stop. */
  function VisitAll<A>(f: (A, Err) -> (A, bool), acc: A, leaves: seq<Err>): (A, bool) {
    if leaves == [] then (acc, false)
    else
      var (next, stop) := f(acc, leaves[0]);
      if stop then (next, true) else VisitAll(f, next, leaves[1..])
  }

  lemma {:induction false} VisitSplits<A>(f: (A, Err) -> (A, bool), acc: A, xs: seq<Err>, ys: seq<Err>)
    ensures VisitAll(f, acc, xs + ys) ==
      var (next, stop) := VisitAll(f, acc, xs);
      if stop then (next, true) else VisitAll(f, next, ys)
    decreases |xs|
  {
    if xs == [] {
      assert xs + ys == ys;
    } else {
      assert (xs + ys)[0] == xs[0] && (xs + ys)[1..] == xs[1..] + ys;
      VisitSplits(f, f(acc, xs[0]).0, xs[1..], ys);
    }
  }

  /** The visitor, a closure over acc in the source, sees exactly the leaves, in order. */
  method Visit<A>(errs: seq<Err>, f: (A, Err) -> (A, bool), acc: A) returns (result: A, found: bool)
    ensures (result, found) == VisitAll(f, acc, Leaves(errs))
    decreases errs
  {
    result, found := acc, false;
    for i := 0 to |errs|
      invariant !found && VisitAll(f, result, Leaves(errs[i..])) == VisitAll(f, acc, Leaves(errs))
    {
      assert errs[i..] == [errs[i]] + errs[i + 1..];
      VisitSplits(f, result, LeavesOf(errs[i]), Leaves(errs[i + 1..]));
      match errs[i] {
        case Aggregate(nested) =>
          result, found := Visit(nested, f, result);
        case Leaf(_, _) =>
          assert LeavesOf(errs[i])[1..] == [];
          var (next, stop) := f(result, errs[i]);
          result, found := next, stop;
      }
      if found {
        return;
      }
    }
  }

  // ----- Is

  /** matches says whether errors.Is(leaf, target). */
  method Is(errs: seq<Err>, matches: Err -> bool) returns (r: bool)
    ensures r <==> exists e :: e in Leaves(errs) && matches(e)
  {
    var f := (_: (), e: Err) => ((), matches(e));
    AnyLeaf(f, matches, Leaves(errs));
    var _, any := Visit(errs, f, ());
    return any;
  }

  lemma {:induction false} AnyLeaf(f: ((), Err) -> ((), bool), matches: Err -> bool, leaves: seq<Err>)
    requires forall e :: f((), e) == ((), matches(e))
    ensures VisitAll(f, (), leaves).1 <==> exists e :: e in leaves && matches(e)
  {
    if leaves != [] {
      assert f((), leaves[0]) == ((), matches(leaves[0]));
      AnyLeaf(f, matches, leaves[1..]);
      assert forall e :: e in leaves <==> e == leaves[0] || e in leaves[1..];
    }
  }

  // ----- Error

  function Messages(leaves: seq<Err>): (msgs: seq<string>)
    requires forall e :: e in leaves ==> e.Leaf?
    ensures |msgs| == |leaves|
    ensures forall i :: 0 <= i < |msgs| ==> msgs[i] == leaves[i].msg
  {
    seq(|leaves|, i requires 0 <= i < |leaves| => leaves[i].msg)
  }

  /** Each message once, in the order first seen. */
  function Distinct(msgs: seq<string>): seq<string> {
    if msgs == [] then []
    else
      var before, last := Distinct(msgs[..|msgs| - 1]), msgs[|msgs| - 1];
      if last in before then before else before + [last]
  }

  function Join(msgs: seq<string>): string {
    if msgs == [] then ""
    else if |msgs| == 1 then msgs[0]
    else Join(msgs[..|msgs| - 1]) + ", " + msgs[|msgs| - 1]
  }

  /** One message stands for itself, several are listed in brackets. */
  function Render(msgs: seq<string>): string {
    if |msgs| == 1 then msgs[0] else "[" + Join(msgs) + "]"
  }

  lemma {:induction false} LeavesAreLeaves(errs: seq<Err>)
    ensures forall e :: e in Leaves(errs) ==> e.Leaf?
    decreases errs
  {
    if errs != [] {
      LeavesOfAreLeaves(errs[0]);
      LeavesAreLeaves(errs[1..]);
    }
  }

  lemma {:induction false} LeavesOfAreLeaves(e: Err)
    ensures forall l :: l in LeavesOf(e) ==> l.Leaf?
    decreases e
  {
    if e.Aggregate? {
      LeavesAreLeaves(e.errs);
    }
  }

  /** What an error says: its distinct leaf messages in first-seen order. */
  function Text(e: Err): string {
    LeavesOfAreLeaves(e);
    Render(Distinct(Messages(LeavesOf(e))))
  }

  /** The closure of Error: the messages seen and the text so far. */
  function Collect(acc: (set<string>, string), e: Err): ((set<string>, string), bool) {
    var msg := if e.Leaf? then e.msg else "";
    if msg in acc.0 then (acc, false)
    else
      var seen := acc.0 + {msg};
      ((seen, acc.1 + (if |seen| > 1 then ", " else "") + msg), false)
  }

  ghost predicate Collected(acc: (set<string>, string), msgs: seq<string>) {
    && (forall m :: m in acc.0 <==> m in Distinct(msgs))
    && |acc.0| == |Distinct(msgs)| && acc.1 == Join(Distinct(msgs))
  }

  lemma NeverStops(acc: (set<string>, string), e: Err)
    ensures !Collect(acc, e).1
  {
  }

  lemma CollectOne(acc: (set<string>, string), msgs: seq<string>, e: Err)
    requires Collected(acc, msgs) && e.Leaf?
    ensures Collected(Collect(acc, e).0, msgs + [e.msg])
  {
    DistinctSnoc(msgs, e.msg);
    JoinSnoc(Distinct(msgs), e.msg);
    hide Distinct, Join;
  }

  lemma DistinctSnoc(msgs: seq<string>, msg: string)
    ensures Distinct(msgs + [msg]) == if msg in Distinct(msgs) then Distinct(msgs) else Distinct(msgs) + [msg]
  {
    assert (msgs + [msg])[..|msgs|] == msgs;
  }

  lemma JoinSnoc(msgs: seq<string>, msg: string)
    ensures Join(msgs + [msg]) == if msgs == [] then msg else Join(msgs) + ", " + msg
  {
    assert (msgs + [msg])[..|msgs|] == msgs;
  }

  lemma MessagesOfTail(msgs: seq<string>, leaves: seq<Err>)
    requires leaves != [] && forall e :: e in leaves ==> e.Leaf?
    ensures forall e :: e in leaves[1..] ==> e.Leaf?
    ensures msgs + Messages(leaves) == (msgs + [leaves[0].msg]) + Messages(leaves[1..])
  {
    assert forall e :: e in leaves[1..] ==> e in leaves;
    assert Messages(leaves) == [leaves[0].msg] + Messages(leaves[1..]);
  }

  lemma {:induction false} CollectAll(acc: (set<string>, string), msgs: seq<string>, leaves: seq<Err>)
    requires Collected(acc, msgs) && forall e :: e in leaves ==> e.Leaf?
    ensures var (end, stop) := VisitAll(Collect, acc, leaves);
      !stop && Collected(end, msgs + Messages(leaves))
    decreases |leaves|
  {
    if leaves == [] {
      assert msgs + Messages(leaves) == msgs;
    } else {
      hide Collected, Collect;
      assert leaves[0] in leaves;
      MessagesOfTail(msgs, leaves);
      CollectOne(acc, msgs, leaves[0]);
      NeverStops(acc, leaves[0]);
      CollectAll(Collect(acc, leaves[0]).0, msgs + [leaves[0].msg], leaves[1..]);
    }
  }

  lemma {:induction false} BuiltHasLeaves(e: Err)
    requires Built(e)
    ensures LeavesOf(e) != []
    decreases e
  {
    if e.Aggregate? {
      BuiltHasLeaves(e.errs[0]);
    }
  }

  lemma {:induction false} DistinctNonempty(msgs: seq<string>)
    requires msgs != []
    ensures Distinct(msgs) != []
  {
  }

  lemma TextOfCollected(errs: seq<Err>)
    requires Leaves(errs) != []
    ensures var (acc, _) := VisitAll(Collect, ({}, ""), Leaves(errs));
      Text(Aggregate(errs)) == if |acc.0| == 1 then acc.1 else "[" + acc.1 + "]"
  {
    LeavesAreLeaves(errs);
    CollectAll(({}, ""), [], Leaves(errs));
    var msgs := Messages(Leaves(errs));
    assert [] + msgs == msgs;
    DistinctNonempty(msgs);
    hide Distinct, Collect, VisitAll;
    assert |Distinct(msgs)| == 1 ==> Join(Distinct(msgs)) == Distinct(msgs)[0];
  }

  lemma TextOfOne(errs: seq<Err>)
    requires |errs| == 1
    ensures Text(Aggregate(errs)) == Text(errs[0])
  {
    assert errs[1..] == [];
    assert Leaves(errs) == LeavesOf(errs[0]) + Leaves(errs[1..]);
    assert Leaves(errs) == LeavesOf(errs[0]);
  }

  lemma TextOfLeaf(e: Err)
    requires e.Leaf?
    ensures Text(e) == e.msg
  {
    LeavesOfAreLeaves(e);
    assert LeavesOf(e) == [e] && Messages(LeavesOf(e)) == [e.msg];
    assert [e.msg][..0] == [];
    assert Distinct([e.msg]) == [e.msg];
  }

  method Error(e: Err) returns (r: string)
    requires Built(e)
    ensures r == Text(e)
    decreases e
  {
    hide Text, Leaves, Collect, VisitAll;
    match e {
      case Leaf(_, msg) =>
        TextOfLeaf(e);
        return msg;
      case Aggregate(errs) =>
        if |errs| == 1 {
          TextOfOne(errs);
          r := Error(errs[0]);
          return;
        }
        BuiltHasLeaves(e);
        TextOfCollected(errs);
        var acc, _ := Visit(errs, Collect, ({}, ""));
        if |acc.0| == 1 {
          return acc.1;
        }
        return "[" + acc.1 + "]";
    }
  }

  // ----- what the text says

  /** Where a message is first seen. */
  function FirstAt(msgs: seq<string>, m: string): (i: nat)
    requires m in msgs
    ensures i < |msgs| && msgs[i] == m && forall j :: 0 <= j < i ==> msgs[j] != m
  {
    if msgs[0] == m then 0 else 1 + FirstAt(msgs[1..], m)
  }

  lemma FirstAtIsUnique(msgs: seq<string>, m: string, i: nat)
    requires i < |msgs| && msgs[i] == m && forall j :: 0 <= j < i ==> msgs[j] != m
    ensures FirstAt(msgs, m) == i
  {
    var k := FirstAt(msgs, m);
    assert !(k < i) && !(i < k);
  }

  /** These are messages of the list, in the order first seen there, each once. */
  predicate InSeenOrder(msgs: seq<string>, listed: seq<string>) {
    && (forall i :: 0 <= i < |listed| ==> listed[i] in msgs)
    && (forall i, j :: 0 <= i < j < |listed| ==> FirstAt(msgs, listed[i]) < FirstAt(msgs, listed[j]))
  }

  lemma SeenBefore(msgs: seq<string>, last: string, m: string)
    requires m in msgs
    ensures m in msgs + [last] && FirstAt(msgs + [last], m) == FirstAt(msgs, m) < |msgs|
  {
    FirstAtIsUnique(msgs + [last], m, FirstAt(msgs, m));
  }

  lemma StillInSeenOrder(msgs: seq<string>, listed: seq<string>, last: string)
    requires InSeenOrder(msgs, listed)
    ensures InSeenOrder(msgs + [last], listed)
    ensures last !in msgs ==> InSeenOrder(msgs + [last], listed + [last])
  {
    hide FirstAt;
    forall i | 0 <= i < |listed|
      ensures listed[i] in msgs + [last] && FirstAt(msgs + [last], listed[i]) == FirstAt(msgs, listed[i]) < |msgs|
    {
      SeenBefore(msgs, last, listed[i]);
    }
    if last !in msgs {
      FirstAtIsUnique(msgs + [last], last, |msgs|);
    }
  }

  /** Every message is listed once, and no other, in the order first seen. */
  lemma {:induction false} DistinctInOrder(msgs: seq<string>)
    ensures forall m :: m in msgs ==> m in Distinct(msgs)
    ensures InSeenOrder(msgs, Distinct(msgs))
  {
    if msgs == [] {
      NothingDistinct();
    } else {
      hide Distinct, InSeenOrder;
      var before, last := msgs[..|msgs| - 1], msgs[|msgs| - 1];
      assert msgs == before + [last];
      DistinctInOrder(before);
      DistinctSnoc(before, last);
      StillInSeenOrder(before, Distinct(before), last);
    }
  }

  /** Lists are joined by a comma and a blank, and a list of one is its entry. */
  lemma {:induction false} JoinSplits(xs: seq<string>, ys: seq<string>)
    requires xs != [] && ys != []
    ensures Join(xs + ys) == Join(xs) + ", " + Join(ys)
    decreases |ys|
  {
    hide Join;
    var front, last := ys[..|ys| - 1], ys[|ys| - 1];
    assert ys == front + [last];
    if front == [] {
      JoinSnoc(xs, last);
      JoinOne(last);
      assert ys == [last];
    } else {
      Assoc(xs, front, [last]);
      JoinSplits(xs, front);
      JoinSnoc(xs + front, last);
      JoinSnoc(front, last);
      Assoc(Join(xs) + ", ", Join(front) + ", ", last);
      Assoc(Join(xs) + ", ", Join(front), ", ");
    }
  }

  /** One message is said as it is, two in brackets. */
  lemma TextOfFew(a: string, b: string)
    ensures Join([a]) == a && Render([a]) == a && Render([a, b]) == "[" + a + ", " + b + "]"
    ensures Distinct([a, a]) == [a]
  {
    hide Join, Distinct;
    JoinOne(a);
    JoinOne(b);
    assert [a] + [b] == [a, b];
    JoinSplits([a], [b]);
    Twice(a);
  }

  lemma JoinOne(a: string)
    ensures Join([a]) == a
  {
  }

  lemma Twice(a: string)
    ensures Distinct([a, a]) == [a]
  {
    hide Distinct;
    DistinctSnoc([], a);
    DistinctSnoc([a], a);
    NothingDistinct();
    EmptySeq([a]);
    assert [a] + [a] == [a, a];
  }

  lemma NothingDistinct()
    ensures Distinct([]) == []
  {
  }

  // ----- FilterOut

  function MatchesAny(fns: seq<Err -> bool>, e: Err): (r: bool)
    ensures r <==> exists i :: 0 <= i < |fns| && fns[i](e)
  {
    fns != [] && (fns[0](e) || MatchesAny(fns[1..], e))
  }

  method MatchesError(e: Err, fns: seq<Err -> bool>) returns (r: bool)
    ensures r == MatchesAny(fns, e)
  {
    for i := 0 to |fns|
      invariant forall j :: 0 <= j < i ==> !fns[j](e)
    {
      if fns[i](e) {
        return true;
      }
    }
    return false;
  }

  /** An error without the leaves that some matcher takes, None when nothing is left. */
  function Filtered(e: Err, fns: seq<Err -> bool>): Option<Err>
    decreases e
  {
    if e.Leaf? then (if MatchesAny(fns, e) then None else Some(e))
    else MakeAggregate(FilteredList(e.errs, fns))
  }

  function FilteredList(errs: seq<Err>, fns: seq<Err -> bool>): seq<Err>
    decreases errs
  {
    if errs == [] then []
    else
      var r := Filtered(errs[0], fns);
      (if r.Some? then [r.value] else []) + FilteredList(errs[1..], fns)
  }

  method FilterOut(e: Option<Err>, fns: seq<Err -> bool>) returns (r: Option<Err>)
    ensures r == if e.None? then None else Filtered(e.value, fns)
    decreases if e.Some? then e.value else Leaf(0, ""), 1
  {
    if e.None? {
      return None;
    }
    match e.value {
      case Aggregate(errs) =>
        var kept := FilterErrors(errs, fns);
        r := NewAggregate(Wrapped(kept));
        NonNilWrapped(kept);
      case Leaf(_, _) =>
        var matched := MatchesError(e.value, fns);
        r := if !matched then e else None;
    }
  }

  method FilterErrors(errs: seq<Err>, fns: seq<Err -> bool>) returns (result: seq<Err>)
    ensures result == FilteredList(errs, fns)
    decreases errs, 0
  {
    result := [];
    for i := 0 to |errs|
      invariant result + FilteredList(errs[i..], fns) == FilteredList(errs, fns)
    {
      var r := FilterOut(Some(errs[i]), fns);
      assert errs[i..][1..] == errs[i + 1..];
      if r.Some? {
        result := result + [r.value];
      }
    }
  }

  /** A list of errors none of which is nil. */
  function Wrapped(errs: seq<Err>): (list: seq<Option<Err>>)
    ensures |list| == |errs| && forall i :: 0 <= i < |list| ==> list[i] == Some(errs[i])
  {
    seq(|errs|, i requires 0 <= i < |errs| => Some(errs[i]))
  }

  lemma {:induction false} NonNilWrapped(errs: seq<Err>)
    ensures NonNil(Wrapped(errs)) == errs
  {
    if errs != [] {
      assert Wrapped(errs)[1..] == Wrapped(errs[1..]);
      NonNilWrapped(errs[1..]);
    }
  }

  // ----- Flatten

  function Flattened(e: Option<Err>): Option<Err> {
    if e.None? then None else MakeAggregate(LeavesOf(e.value))
  }

  lemma LeavesAt(errs: seq<Err>, i: nat)
    requires i < |errs|
    ensures Leaves(errs[i..]) == LeavesOf(errs[i]) + Leaves(errs[i + 1..])
  {
    assert errs[i..][1..] == errs[i + 1..];
  }

  method Flatten(agg: Option<Err>) returns (r: Option<Err>)
    requires agg.Some? ==> agg.value.Aggregate?
    ensures r == Flattened(agg)
    decreases if agg.Some? then agg.value else Leaf(0, "")
  {
    if agg.None? {
      return None;
    }
    var errs := agg.value.errs;
    var result: seq<Err> := [];
    for i := 0 to |errs|
      invariant result + Leaves(errs[i..]) == Leaves(errs)
    {
      LeavesAt(errs, i);
      ghost var before := result;
      if errs[i].Aggregate? {
        var nested := Flatten(Some(errs[i]));
        if nested.Some? {
          result := result + nested.value.errs;
        }
      } else {
        result := result + [errs[i]];
      }
      assert result == before + LeavesOf(errs[i]);
      Assoc(before, LeavesOf(errs[i]), Leaves(errs[i + 1..]));
    }
    assert result + [] == result && errs[|errs|..] == [];
    r := NewAggregate(Wrapped(result));
    NonNilWrapped(result);
  }

  // ----- laws

  lemma {:induction false} LeavesOfLeaves(leaves: seq<Err>)
    requires forall e :: e in leaves ==> e.Leaf?
    ensures Leaves(leaves) == leaves
    decreases |leaves|
  {
    if leaves != [] {
      assert leaves[0] in leaves && forall e :: e in leaves[1..] ==> e in leaves;
      LeavesOfLeaves(leaves[1..]);
    }
  }

  lemma FlatteningKeepsLeaves(e: Err)
    ensures Flattened(Some(e)).Some? ==> LeavesOf(Flattened(Some(e)).value) == LeavesOf(e)
  {
    LeavesOfAreLeaves(e);
    LeavesOfLeaves(LeavesOf(e));
  }

  /** Flattening changes nothing that can be asked of an aggregate: it says the same, and
      it matches the same targets. */
  lemma FlattenIsInvisible(e: Err, matches: Err -> bool)
    requires Built(e)
    ensures Flattened(Some(e)).Some?
    ensures var flat := Flattened(Some(e)).value;
      && Built(flat) && Text(flat) == Text(e)
      && ((exists l :: l in LeavesOf(flat) && matches(l)) <==> (exists l :: l in LeavesOf(e) && matches(l)))
  {
    BuiltHasLeaves(e);
    FlatteningKeepsLeaves(e);
    LeavesOfAreLeaves(e);
    LeavesAreBuilt(LeavesOf(e));
  }

  lemma {:induction false} LeavesAreBuilt(leaves: seq<Err>)
    requires forall e :: e in leaves ==> e.Leaf?
    ensures AllBuilt(leaves)
  {
    if leaves != [] {
      assert leaves[0] in leaves && forall e :: e in leaves[1..] ==> e in leaves;
      LeavesAreBuilt(leaves[1..]);
    }
  }

  lemma FlattenIsIdempotent(e: Option<Err>)
    ensures Flattened(Flattened(e)) == Flattened(e)
  {
    if e.Some? {
      FlatteningKeepsLeaves(e.value);
    }
  }

  function KeepUnmatched(leaves: seq<Err>, fns: seq<Err -> bool>): seq<Err> {
    if leaves == [] then []
    else (if MatchesAny(fns, leaves[0]) then [] else [leaves[0]]) + KeepUnmatched(leaves[1..], fns)
  }

  lemma {:induction false} KeepSplits(xs: seq<Err>, ys: seq<Err>, fns: seq<Err -> bool>)
    ensures KeepUnmatched(xs + ys, fns) == KeepUnmatched(xs, fns) + KeepUnmatched(ys, fns)
  {
    if xs == [] {
      assert xs + ys == ys;
    } else {
      assert (xs + ys)[0] == xs[0] && (xs + ys)[1..] == xs[1..] + ys;
      KeepSplits(xs[1..], ys, fns);
    }
  }

  function LeavesOfOption(e: Option<Err>): seq<Err> {
    if e.None? then [] else LeavesOf(e.value)
  }

  /** Filtering keeps exactly the leaves that no matcher takes, in order, at any depth. */
  lemma {:induction false} FilteringFiltersLeaves(e: Err, fns: seq<Err -> bool>)
    ensures LeavesOfOption(Filtered(e, fns)) == KeepUnmatched(LeavesOf(e), fns)
    decreases e
  {
    if e.Aggregate? {
      FilteringFiltersList(e.errs, fns);
    } else {
      assert [e][1..] == [];
    }
  }

  lemma {:induction false} FilteringFiltersList(errs: seq<Err>, fns: seq<Err -> bool>)
    ensures Leaves(FilteredList(errs, fns)) == KeepUnmatched(Leaves(errs), fns)
    decreases errs
  {
    if errs != [] {
      FilteringFiltersLeaves(errs[0], fns);
      FilteringFiltersList(errs[1..], fns);
      KeepSplits(LeavesOf(errs[0]), Leaves(errs[1..]), fns);
      var r := Filtered(errs[0], fns);
      LeavesSplit(if r.Some? then [r.value] else [], FilteredList(errs[1..], fns));
      if r.Some? {
        assert [r.value][1..] == [];
        assert Leaves([r.value]) == LeavesOf(r.value);
      }
    }
  }

  lemma {:induction false} FilteringLeaves(leaves: seq<Err>, fns: seq<Err -> bool>)
    requires forall e :: e in leaves ==> e.Leaf?
    ensures FilteredList(leaves, fns) == KeepUnmatched(leaves, fns)
    decreases |leaves|
  {
    if leaves != [] {
      assert leaves[0] in leaves && forall e :: e in leaves[1..] ==> e in leaves;
      FilteringLeaves(leaves[1..], fns);
    }
  }

  /** Flattening and filtering an aggregate commute. */
  lemma FlattenCommutesWithFilterOut(errs: seq<Err>, fns: seq<Err -> bool>)
    ensures var agg := Aggregate(errs);
      var flat := Flattened(Some(agg));
      Flattened(Filtered(agg, fns)) == if flat.None? then None else Filtered(flat.value, fns)
  {
    var agg := Aggregate(errs);
    FilteringFiltersLeaves(agg, fns);
    LeavesOfAreLeaves(agg);
    FilteringLeaves(LeavesOf(agg), fns);
  }

  // ----- filtering does not flatten

  /** The list left by FilterOut has no nested aggregates exactly when every nested
      aggregate loses all its leaves, although the comment on filterErrors says it is
      always flattened. */
  lemma {:induction false} FilterOutFlattensIff(errs: seq<Err>, fns: seq<Err -> bool>)
    requires AllBuilt(errs)
    ensures (forall e :: e in FilteredList(errs, fns) ==> e.Leaf?)
      <==> (forall e :: e in errs && e.Aggregate? ==> KeepUnmatched(LeavesOf(e), fns) == [])
    decreases |errs|
  {
    if errs != [] {
      var first, rest := errs[0], FilteredList(errs[1..], fns);
      var r := Filtered(first, fns);
      FilterOutFlattensIff(errs[1..], fns);
      FilteringFiltersLeaves(first, fns);
      if r.Some? {
        FilteredIsBuilt(first, fns);
        BuiltHasLeaves(r.value);
      }
      assert forall e :: e in errs <==> e == first || e in errs[1..];
      assert forall e :: e in FilteredList(errs, fns) <==> (r.Some? && e == r.value) || e in rest;
    }
  }

  /** Without any matcher, a list of one aggregate comes back as it was. */
  lemma FilterOutKeepsNesting(id: int, msg: string)
    ensures var errs := [Aggregate([Leaf(id, msg)])];
      AllBuilt(errs) && FilteredList(errs, []) == errs && !(forall e :: e in FilteredList(errs, []) ==> e.Leaf?)
  {
    var leaf := Leaf(id, msg);
    var errs := [Aggregate([leaf])];
    assert errs[1..] == [] && [leaf][1..] == [];
    LeavesAreBuilt([leaf]);
    assert Built(errs[0]);
    assert Filtered(leaf, []) == Some(leaf);
    assert FilteredList([leaf], []) == [leaf] + FilteredList([leaf][1..], []) == [leaf];
    assert Filtered(errs[0], []) == Some(errs[0]);
    assert FilteredList(errs, []) == errs;
    assert errs[0] in errs && errs[0].Aggregate?;
  }

  lemma {:induction false} FilteredIsBuilt(e: Err, fns: seq<Err -> bool>)
    requires Built(e)
    ensures Filtered(e, fns).Some? ==> Built(Filtered(e, fns).value)
    decreases e
  {
    if e.Aggregate? {
      FilteredListIsBuilt(e.errs, fns);
    }
  }

  lemma {:induction false} FilteredListIsBuilt(errs: seq<Err>, fns: seq<Err -> bool>)
    requires AllBuilt(errs)
    ensures AllBuilt(FilteredList(errs, fns))
    decreases errs
  {
    if errs != [] {
      FilteredIsBuilt(errs[0], fns);
      FilteredListIsBuilt(errs[1..], fns);
      var r, rest := Filtered(errs[0], fns), FilteredList(errs[1..], fns);
      if r.Some? {
        assert ([r.value] + rest)[1..] == rest;
      } else {
        assert [] + rest == rest;
      }
    }
  }
}
