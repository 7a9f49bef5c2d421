/** Wrapped errors and error codes: which code a chain of wrappers shows, and what the
    wrappers leave unchanged. None stands for the nil error. */
module ErrorCodes {
  import opened Wrappers

  /** An optional method of a foreign error: absent, or present and giving an error or nil. */
  datatype Method = Absent | Gives(next: Option<Error>)

  datatype Error =
    | Base(id: int)
    | Foreign(id: int, unwrap: Method, cause: Method)
    | Stacked(err: Error)
    | Messaged(inner: Error, text: string)
    | Coded(text: string, code: int, root: Option<Error>)

  // ----- constructors

  function WithStack(e: Option<Error>): Option<Error> {
    match e
    case None => None
    case Some(Coded(text, code, _)) => Some(Coded(text, code, e))
    case Some(err) => Some(Stacked(err))
  }

  function Wrap(e: Option<Error>, text: string): Option<Error> {
    match e
    case None => None
    case Some(Coded(_, code, _)) => Some(Coded(text, code, e))
    case Some(err) => Some(Stacked(Messaged(err, text)))
  }

  function WithMessage(e: Option<Error>, text: string): Option<Error> {
    if e.None? then None else Some(Messaged(e.value, text))
  }

  function WithCode(code: int, text: string): Option<Error> {
    Some(Coded(text, code, None))
  }

  function WrapC(e: Option<Error>, code: int, text: string): Option<Error> {
    if e.None? then None else Some(Coded(text, code, e))
  }

  // ----- Unwrap and Cause

  /** The Unwrap method; the one of a stacked error skips the error it holds when that
      has an Unwrap of its own. */
  function UnwrapOf(e: Error): (m: Method)
    ensures m.Gives? && m.next.Some? ==> m.next.value < e
  {
    match e
    case Base(_) => Absent
    case Foreign(_, unwrap, _) => unwrap
    case Stacked(err) => if UnwrapOf(err).Gives? then UnwrapOf(err) else Gives(Some(err))
    case Messaged(inner, _) => Gives(Some(inner))
    case Coded(_, _, root) => Gives(root)
  }

  function CauseOf(e: Error): (m: Method)
    ensures m.Gives? && m.next.Some? ==> m.next.value < e
  {
    match e
    case Base(_) => Absent
    case Foreign(_, _, cause) => cause
    case Stacked(err) => Gives(Some(err))
    case Messaged(inner, _) => Gives(Some(inner))
    case Coded(_, _, root) => Gives(root)
  }

  /** The error reached by following causes while there is one. */
  function RootCause(e: Error): Error {
    match CauseOf(e)
    case Gives(Some(next)) => RootCause(next)
    case _ => e
  }

  method Cause(e: Option<Error>) returns (r: Option<Error>)
    ensures r == if e.None? then None else Some(RootCause(e.value))
  {
    if e.None? {
      return None;
    }
    var err := e.value;
    while true
      invariant RootCause(err) == RootCause(e.value)
      decreases err
    {
      var cause := CauseOf(err);
      if cause.Absent? {
        break;
      }
      if cause.next.None? {
        break;
      }
      err := cause.next.value;
    }
    return Some(err);
  }

  // ----- codes

  datatype Coder = Coder(code: int, http: int, text: string, reference: string)

  const UNKNOWN := Coder(1, 500, "An internal server error occurred",
                         "http://github.com/FangcunMount/component-base/errors/README.md")

  /** The code of the first coded error met by errors.As. */
  function FirstCode(e: Error): Option<int> {
    if e.Coded? then Some(e.code)
    else match UnwrapOf(e)
      case Gives(Some(next)) => FirstCode(next)
      case _ => None
  }

  function ParseCoder(codes: map<int, Coder>, e: Option<Error>): Option<Coder> {
    if e.None? then None
    else
      var code := FirstCode(e.value);
      if code.Some? && code.value in codes then Some(codes[code.value]) else Some(UNKNOWN)
  }

  predicate IsCode(e: Option<Error>, code: int) {
    match e
    case Some(Coded(_, c, root)) => c == code || (root.Some? && IsCode(root, code))
    case _ => false
  }

  datatype Panic = ReservedCode | AlreadyRegistered

  class Registry {
    var codes: map<int, Coder>

    constructor ()
      ensures codes == map[1 := UNKNOWN]
    {
      codes := map[UNKNOWN.code := UNKNOWN];
    }

    method Register(coder: Coder) returns (r: Result<(), Panic>)
      modifies this
      ensures r == if coder.code == 0 then Err(ReservedCode) else Ok(())
      ensures codes == if r.Ok? then old(codes)[coder.code := coder] else old(codes)
    {
      if coder.code == 0 {
        return Err(ReservedCode);
      }
      codes := codes[coder.code := coder];
      return Ok(());
    }

    method MustRegister(coder: Coder) returns (r: Result<(), Panic>)
      modifies this
      ensures r == if coder.code == 0 then Err(ReservedCode)
                   else if coder.code in old(codes) then Err(AlreadyRegistered) else Ok(())
      ensures codes == if r.Ok? then old(codes)[coder.code := coder] else old(codes)
    {
      if coder.code == 0 {
        return Err(ReservedCode);
      }
      if coder.code in codes {
        return Err(AlreadyRegistered);
      }
      codes := codes[coder.code := coder];
      return Ok(());
    }
  }

  // ----- what wrapping leaves unchanged

  datatype Wrapper = Stack | Wrapped(text: string) | Message(text: string)

  function Apply(w: Wrapper, e: Option<Error>): Option<Error> {
    match w
    case Stack => WithStack(e)
    case Wrapped(text) => Wrap(e, text)
    case Message(text) => WithMessage(e, text)
  }

  /** Wrappers applied one after the other, the last of the list outermost. */
  function ApplyAll(ws: seq<Wrapper>, e: Option<Error>): Option<Error>
    decreases |ws|
  {
    if ws == [] then e else ApplyAll(ws[1..], Apply(ws[0], e))
  }

  lemma {:induction false} WrapperKeeps(w: Wrapper, e: Error)
    ensures var r := Apply(w, Some(e));
      && r.Some? && FirstCode(r.value) == FirstCode(e) && RootCause(r.value) == RootCause(e)
  {
    match w {
      case Wrapped(text) =>
        if !e.Coded? {
          assert UnwrapOf(Stacked(Messaged(e, text))) == Gives(Some(e));
          assert RootCause(Messaged(e, text)) == RootCause(e);
        }
      case _ =>
    }
  }

  /** Whatever stack of stack, message and wrap layers is put on an error, it parses to
      the same coder and has the same root cause. */
  lemma {:induction false} WrappersKeepCoderAndCause(codes: map<int, Coder>, ws: seq<Wrapper>, e: Option<Error>)
    ensures var r := ApplyAll(ws, e);
      && ParseCoder(codes, r) == ParseCoder(codes, e)
      && r.None? == e.None? && (e.Some? ==> RootCause(r.value) == RootCause(e.value))
    decreases |ws|
  {
    if ws != [] {
      if e.Some? {
        WrapperKeeps(ws[0], e.value);
      }
      WrappersKeepCoderAndCause(codes, ws[1..], Apply(ws[0], e));
    }
  }

  /** Stack and wrap layers do not change which codes an error is found to have either. */
  lemma {:induction false} WrappersKeepIsCode(ws: seq<Wrapper>, e: Option<Error>, code: int)
    requires forall i :: 0 <= i < |ws| ==> !ws[i].Message?
    ensures IsCode(ApplyAll(ws, e), code) <==> IsCode(e, code)
    decreases |ws|
  {
    if ws != [] {
      assert IsCode(Apply(ws[0], e), code) <==> IsCode(e, code);
      WrappersKeepIsCode(ws[1..], Apply(ws[0], e), code);
    }
  }

  /** The message an error was last given, under any stack layers. */
  function TextOf(e: Error): Option<string> {
    match e
    case Stacked(err) => TextOf(err)
    case Messaged(_, text) => Some(text)
    case Coded(text, _, _) => Some(text)
    case _ => None
  }

  /** A stack layer keeps the message, every other constructor sets it; nil stays nil. */
  lemma ConstructorsSetText(e: Option<Error>, w: Wrapper, code: int, text: string)
    ensures e.Some? ==> TextOf(Apply(w, e).value) == match w
      case Stack => TextOf(e.value)
      case Wrapped(message) => Some(message)
      case Message(message) => Some(message)
    ensures e.Some? ==> WrapC(e, code, text).Some? && TextOf(WrapC(e, code, text).value) == Some(text)
    ensures e.None? ==> Apply(w, e) == WrapC(e, code, text) == None
    ensures TextOf(WithCode(code, text).value) == Some(text)
  {
  }

  /** A new coded error carries its code alone and is its own cause. */
  lemma WithCodeIsARoot(codes: map<int, Coder>, c0: int, text: string, code: int)
    ensures var e := WithCode(c0, text);
      && (IsCode(e, code) <==> code == c0)
      && ParseCoder(codes, e) == Some(if c0 in codes then codes[c0] else UNKNOWN)
      && RootCause(e.value) == e.value && Chain(e.value) == [e.value]
  {
  }

  /** WrapC adds its code to the ones found, becomes what parsing finds, and keeps the cause. */
  lemma WrapCAddsCode(codes: map<int, Coder>, e: Option<Error>, c0: int, text: string, code: int)
    requires e.Some?
    ensures var r := WrapC(e, c0, text);
      && (IsCode(r, code) <==> code == c0 || IsCode(e, code))
      && ParseCoder(codes, r) == Some(if c0 in codes then codes[c0] else UNKNOWN)
      && RootCause(r.value) == RootCause(e.value)
  {
  }

  // ----- the skipping Unwrap never jumps over a code

  /** Errors as the constructors make them: none puts a stack layer directly on a coded
      error. Foreign errors may hold such errors. */
  predicate Built(e: Error) {
    match e
    case Base(_) => true
    case Foreign(_, unwrap, _) => unwrap.Gives? && unwrap.next.Some? ==> Built(unwrap.next.value)
    case Stacked(err) => !err.Coded? && Built(err)
    case Messaged(inner, _) => Built(inner)
    case Coded(_, _, root) => root.Some? ==> Built(root.value)
  }

  lemma ConstructorsBuild(e: Option<Error>, w: Wrapper, code: int, text: string)
    requires e.Some? ==> Built(e.value)
    ensures e.Some? ==> Built(Apply(w, e).value) && Built(WrapC(e, code, text).value)
    ensures Built(WithCode(code, text).value)
  {
  }

  /** The first code met when no layer is skipped. */
  function FirstCodeInside(e: Error): Option<int> {
    match e
    case Base(_) => None
    case Foreign(_, unwrap, _) =>
      if unwrap.Gives? && unwrap.next.Some? then FirstCodeInside(unwrap.next.value) else None
    case Stacked(err) => FirstCodeInside(err)
    case Messaged(inner, _) => FirstCodeInside(inner)
    case Coded(_, code, _) => Some(code)
  }

  lemma {:induction false} SkippingLosesNoCode(e: Error)
    requires Built(e)
    ensures FirstCode(e) == FirstCodeInside(e)
  {
    match e
    case Base(_) =>
    case Foreign(_, unwrap, _) =>
      if unwrap.Gives? && unwrap.next.Some? {
        SkippingLosesNoCode(unwrap.next.value);
      }
    case Stacked(err) =>
      SkippingLosesNoCode(err);
      assert FirstCode(e) == FirstCode(err);
    case Messaged(inner, _) => SkippingLosesNoCode(inner);
    case Coded(_, _, _) =>
  }

  // ----- what IsCode looks at

  /** The error and everything reached from it by Unwrap. */
  function Chain(e: Error): (chain: seq<Error>)
    ensures chain != [] && chain[0] == e
  {
    match UnwrapOf(e)
    case Gives(Some(next)) => [e] + Chain(next)
    case _ => [e]
  }

  /** The error at i carries the code, and every error before it is coded too. */
  predicate LeadingCode(chain: seq<Error>, code: int, i: nat) {
    i < |chain| && chain[i].Coded? && chain[i].code == code && forall j :: 0 <= j < i ==> chain[j].Coded?
  }

  /** Some error of the chain carries the code, and every error before it is coded. */
  ghost predicate Leads(chain: seq<Error>, code: int) {
    exists i: nat :: LeadingCode(chain, code, i)
  }

  lemma LeadsUnfolds(chain: seq<Error>, code: int)
    requires chain != []
    ensures Leads(chain, code) <==> chain[0].Coded? && (chain[0].code == code || Leads(chain[1..], code))
  {
    if i: nat :| LeadingCode(chain, code, i) {
      assert i > 0 ==> LeadingCode(chain[1..], code, i - 1);
    }
    if chain[0].Coded? {
      if chain[0].code == code {
        assert LeadingCode(chain, code, 0);
      } else if i: nat :| LeadingCode(chain[1..], code, i) {
        assert forall j :: 0 < j <= i ==> chain[j] == chain[1..][j - 1];
        assert LeadingCode(chain, code, i + 1);
      }
    }
  }

  /** A code is found exactly when an error of the chain carries it and every error before
      that one is coded too; the comment on IsCode promises any error of the chain. */
  lemma {:induction false} IsCodeSeesLeadingCodes(e: Error, code: int)
    ensures IsCode(Some(e), code) <==> Leads(Chain(e), code)
  {
    hide Leads;
    LeadsUnfolds(Chain(e), code);
    if e.Coded? && e.root.Some? {
      Cons(e, Chain(e.root.value));
      IsCodeSeesLeadingCodes(e.root.value, code);
    } else if e.Coded? {
      assert Chain(e)[1..] == [];
      NothingLeads(code);
    }
  }

  lemma NothingLeads(code: int)
    ensures !Leads([], code)
  {
  }

  /** The coder parsed from an error is the one registered for the first code on its chain;
      an error without a code, or with one nobody registered, gives the unknown coder, and
      only nil gives none. */
  lemma {:induction false} ParsesTheFirstCode(codes: map<int, Coder>, e: Error, i: nat)
    requires i < |Chain(e)| && forall j :: 0 <= j < i ==> !Chain(e)[j].Coded?
    ensures Chain(e)[i].Coded? ==>
      var code := Chain(e)[i].code;
      ParseCoder(codes, Some(e)) == Some(if code in codes then codes[code] else UNKNOWN)
    ensures i == |Chain(e)| - 1 && !Chain(e)[i].Coded? ==> ParseCoder(codes, Some(e)) == Some(UNKNOWN)
    ensures ParseCoder(codes, None) == None
    decreases i
  {
    if i > 0 {
      var next := UnwrapOf(e).next.value;
      Cons(e, Chain(next));
      forall j | 0 <= j < i - 1 ensures !Chain(next)[j].Coded? {
        assert Chain(e)[j + 1] == Chain(next)[j];
      }
      ParsesTheFirstCode(codes, next, i - 1);
      assert !Chain(e)[0].Coded?;
    }
  }

  lemma {:induction false} ChainIsSmaller(e: Error)
    ensures forall x :: x in Chain(e) ==> x == e || x < e
  {
    match UnwrapOf(e)
    case Gives(Some(next)) =>
      ChainIsSmaller(next);
      assert Chain(e) == [e] + Chain(next);
    case _ =>
  }

  /** An error is still on the chain of its wrapper, where errors.Is looks for it, under
      every wrapper but one: a stack layer hides it exactly when it is not coded and has an
      Unwrap of its own, which the layer's Unwrap calls instead of giving it. */
  lemma WrappedStaysOnChainIff(w: Wrapper, e: Error, code: int, text: string)
    ensures e in Chain(Apply(w, Some(e)).value) <==> !(w.Stack? && !e.Coded? && UnwrapOf(e).Gives?)
    ensures e in Chain(WrapC(Some(e), code, text).value)
  {
    assert Chain(e)[0] == e;
    assert Chain(Coded(text, code, Some(e))) == [Coded(text, code, Some(e))] + Chain(e);
    match w {
      case Stack =>
        if !e.Coded? && UnwrapOf(e).Gives? && UnwrapOf(e).next.Some? {
          ChainIsSmaller(UnwrapOf(e).next.value);
        }
      case Wrapped(message) =>
        var inner := Messaged(e, message);
        assert UnwrapOf(Stacked(inner)) == Gives(Some(e));
      case Message(_) =>
    }
  }

  /** Some error of the chain carries the code. */
  predicate Carries(e: Error, code: int) {
    exists i :: 0 <= i < |Chain(e)| && Chain(e)[i].Coded? && Chain(e)[i].code == code
  }

  /** Every code on the chain also comes before the first error without one. */
  ghost predicate CodesLead(e: Error) {
    var chain := Chain(e);
    forall i :: 0 <= i < |chain| && chain[i].Coded? ==> Leads(chain, chain[i].code)
  }

  /** IsCode does what its comment says of an error, for every code, exactly when every
      code on the error's chain comes before the first error without one. */
  lemma IsCodeFindsAllIff(e: Error)
    ensures (forall code :: IsCode(Some(e), code) <==> Carries(e, code)) <==> CodesLead(e)
  {
    hide Leads, Chain, IsCode;
    forall code ensures IsCode(Some(e), code) <==> Leads(Chain(e), code) {
      IsCodeSeesLeadingCodes(e, code);
    }
    forall code ensures Leads(Chain(e), code) ==> Carries(e, code) {
      LeadersCarry(e, code);
    }
    if !CodesLead(e) {
      var i :| 0 <= i < |Chain(e)| && Chain(e)[i].Coded? && !Leads(Chain(e), Chain(e)[i].code);
      assert Carries(e, Chain(e)[i].code) && !IsCode(Some(e), Chain(e)[i].code);
    }
  }

  lemma LeadersCarry(e: Error, code: int)
    ensures Leads(Chain(e), code) ==> Carries(e, code)
  {
  }

  /** A message layer hides every code below it from IsCode, though the chain still has
      them all, and ParseCoder still finds the first. */
  lemma MessageHidesCodes(codes: map<int, Coder>, e: Option<Error>, text: string, code: int)
    ensures !IsCode(WithMessage(e, text), code)
    ensures e.Some? && Carries(e.value, code) ==> Carries(WithMessage(e, text).value, code)
    ensures ParseCoder(codes, WithMessage(e, text)) == ParseCoder(codes, e)
  {
    if e.Some? {
      WrapperKeeps(Message(text), e.value);
      var r := WithMessage(e, text).value;
      assert Chain(r) == [r] + Chain(e.value);
      if i :| 0 <= i < |Chain(e.value)| && Chain(e.value)[i].Coded? && Chain(e.value)[i].code == code {
        assert Chain(r)[i + 1] == Chain(e.value)[i];
      }
    }
  }

  /** An error with a code, under a message: the code is on the chain and is not found. */
  lemma CodeUnderMessage(code: int, text: string, message: string)
    ensures var e := WithMessage(WithCode(code, text), message);
      Built(e.value) && Carries(e.value, code) && !IsCode(e, code) && !CodesLead(e.value)
  {
    var inner := WithCode(code, text);
    assert Chain(inner.value)[0] == inner.value;
    MessageHidesCodes(map[], inner, message, code);
    IsCodeFindsAllIff(WithMessage(inner, message).value);
  }
}
