/** The reading inspector: `operator()(xs...)` walks its arguments left to
    right and turns each into calls on the concrete inspector (the
    "subtype"); the first call that reports an error ends the walk and that
    error is the result. Values are described by the shape the dispatch in
    `try_apply` distinguishes; what each call answers is a parameter. */
module ReadInspector {
  import opened Wrappers

  /** An integer type: its width in bytes and its signedness. The squashed
      type is the fixed-width integer type with the same width and
      signedness. */
  datatype IntType = IntType(name: string, bytes: nat, signed: bool)

  datatype Value =
    | EmptyType
    | UnsafeType
    | Integral(v: int, ty: IntType)
    | Applicable(atom: nat)
    | ArrayOf(elems: seq<Value>)
    | TupleOf(elems: seq<Value>)
    | MapLike(pairs: seq<Pair>)
    | ListLike(elems: seq<Value>)
    | Inspectable(fields: seq<Value>)
    | Annotation(saveCallback: bool, callback: nat)

  datatype Pair = Pair(key: Value, val: Value)

  /** A call on the concrete inspector. */
  datatype Call =
    | ApplyInt(v: int, bytes: nat, signed: bool)
    | ApplyAtom(atom: nat)
    | BeginSequence(size: nat)
    | EndSequence
    | RunCallback(callback: nat)

  type Error = nat

  /** What a call answers: an error, or none (also for calls returning
      `void`). */
  type Answer = Call -> Option<Error>

  datatype Outcome = Outcome(calls: seq<Call>, result: Option<Error>)

  const Done := Outcome([], None)

  /** Runs `first`; only if it succeeds runs `rest`, concatenating the calls. */
  function Then(first: Outcome, rest: Outcome): (r: Outcome)
    ensures first.result.Some? ==> r == first
    ensures first.result.None? ==> r == Outcome(first.calls + rest.calls, rest.result)
  {
    if first.result.Some? then first else Outcome(first.calls + rest.calls, rest.result)
  }

  function One(c: Call, answer: Answer): (r: Outcome)
    ensures r.calls == [c] && r.result == answer(c)
  {
    Outcome([c], answer(c))
  }

  /** `try_apply(result, x)`, both overloads. */
  function TryApply(x: Value, answer: Answer): (r: Outcome)
    decreases x, 1
  {
    match x
    case EmptyType => Done
    case UnsafeType => Done
    case Integral(v, ty) => One(ApplyInt(v, ty.bytes, ty.signed), answer)
    case Applicable(a) => One(ApplyAtom(a), answer)
    case ArrayOf(elems) => ApplyAll(elems, answer)
    case TupleOf(elems) => ApplyAll(elems, answer)
    case MapLike(pairs) =>
      Then(One(BeginSequence(|pairs|), answer), Then(ApplyPairs(pairs, answer), One(EndSequence, answer)))
    case ListLike(elems) =>
      Then(One(BeginSequence(|elems|), answer), Then(ApplyEach(elems, answer), One(EndSequence, answer)))
    case Inspectable(fields) => ApplyAll(fields, answer)
    case Annotation(save, cb) => if save then One(RunCallback(cb), answer) else Done
  }

  /** `operator()(xs...)`: the fold `(try_apply(result, xs) && ...)`. */
  function ApplyAll(xs: seq<Value>, answer: Answer): (r: Outcome)
    decreases xs, 0
  {
    if |xs| == 0 then Done else Then(TryApply(xs[0], answer), ApplyAll(xs[1..], answer))
  }

  /** The loop over a list: one `operator()` per element. */
  function ApplyEach(xs: seq<Value>, answer: Answer): (r: Outcome)
    decreases xs, 0
  {
    if |xs| == 0 then Done else Then(TryApply(xs[0], answer), ApplyEach(xs[1..], answer))
  }

  /** The loop over a map: one `operator()(key, value)` per entry. */
  function ApplyPairs(ps: seq<Pair>, answer: Answer): (r: Outcome)
    decreases ps, 0
  {
    if |ps| == 0 then Done else Then(ApplyPair(ps[0], answer), ApplyPairs(ps[1..], answer))
  }

  /** `operator()(kvp.first, kvp.second)`. */
  function ApplyPair(p: Pair, answer: Answer): (r: Outcome)
    decreases p, 0
  {
    Then(TryApply(p.key, answer), TryApply(p.val, answer))
  }

  // -- the reference: flatten, then stop at the first error -------------------

  /** The calls a value produces when no call fails. */
  function CallsOf(x: Value): (r: seq<Call>)
    decreases x, 1
  {
    match x
    case EmptyType => []
    case UnsafeType => []
    case Integral(v, ty) => [ApplyInt(v, ty.bytes, ty.signed)]
    case Applicable(a) => [ApplyAtom(a)]
    case ArrayOf(elems) => CallsOfAll(elems)
    case TupleOf(elems) => CallsOfAll(elems)
    case MapLike(pairs) => [BeginSequence(|pairs|)] + CallsOfPairs(pairs) + [EndSequence]
    case ListLike(elems) => [BeginSequence(|elems|)] + CallsOfAll(elems) + [EndSequence]
    case Inspectable(fields) => CallsOfAll(fields)
    case Annotation(save, cb) => if save then [RunCallback(cb)] else []
  }

  function CallsOfAll(xs: seq<Value>): (r: seq<Call>)
    decreases xs, 0
  {
    if |xs| == 0 then [] else CallsOf(xs[0]) + CallsOfAll(xs[1..])
  }

  function CallsOfPairs(ps: seq<Pair>): (r: seq<Call>)
    decreases ps, 0
  {
    if |ps| == 0 then [] else CallsOfPair(ps[0]) + CallsOfPairs(ps[1..])
  }

  function CallsOfPair(p: Pair): (r: seq<Call>)
    decreases p, 0
  {
    CallsOf(p.key) + CallsOf(p.val)
  }

  /** The calls made up to and including the first failing one, and its
      error. */
  function RunUntilError(cs: seq<Call>, answer: Answer): (r: Outcome)
    ensures |r.calls| <= |cs| && r.calls == cs[..|r.calls|]
    ensures r.result.None? ==> r.calls == cs && forall i :: 0 <= i < |cs| ==> answer(cs[i]).None?
    ensures r.result.Some? ==>
      && |r.calls| > 0 && r.result == answer(r.calls[|r.calls| - 1])
      && forall i :: 0 <= i < |r.calls| - 1 ==> answer(r.calls[i]).None?
  {
    if |cs| == 0 then Done
    else if answer(cs[0]).Some? then Outcome([cs[0]], answer(cs[0]))
    else
      var rest := RunUntilError(cs[1..], answer);
      assert cs == [cs[0]] + cs[1..];
      Outcome([cs[0]] + rest.calls, rest.result)
  }

  lemma {:induction false} RunUntilErrorAppend(a: seq<Call>, b: seq<Call>, answer: Answer)
    ensures RunUntilError(a + b, answer) == Then(RunUntilError(a, answer), RunUntilError(b, answer))
  {
    if |a| == 0 {
      assert a + b == b;
    } else {
      assert (a + b)[0] == a[0];
      assert (a + b)[1..] == a[1..] + b;
      RunUntilErrorAppend(a[1..], b, answer);
    }
  }

  /** The inspector is the flattened call sequence cut at the first error:
      arguments go left to right, elements in order, sequences are
      bracketed by `begin_sequence(size)` and `end_sequence`, and the first
      error is the result. */
  lemma {:induction false} TryApplyIsCutFlattening(x: Value, answer: Answer)
    ensures TryApply(x, answer) == RunUntilError(CallsOf(x), answer)
    decreases x, 1
  {
    match x
    case EmptyType =>
    case UnsafeType =>
    case Integral(v, ty) => RunOne(ApplyInt(v, ty.bytes, ty.signed), answer);
    case Applicable(a) => RunOne(ApplyAtom(a), answer);
    case ArrayOf(elems) => ApplyAllIsCutFlattening(elems, answer);
    case TupleOf(elems) => ApplyAllIsCutFlattening(elems, answer);
    case MapLike(pairs) =>
      ApplyPairsIsCutFlattening(pairs, answer);
      MapIsCut(pairs, answer);
    case ListLike(elems) =>
      ApplyEachIsCutFlattening(elems, answer);
      ListIsCut(elems, answer);
    case Inspectable(fields) => ApplyAllIsCutFlattening(fields, answer);
    case Annotation(save, cb) => RunOne(RunCallback(cb), answer);
  }

  lemma RunOne(c: Call, answer: Answer)
    ensures RunUntilError([c], answer) == One(c, answer)
  {
    assert [c][1..] == [];
  }

  lemma MapIsCut(pairs: seq<Pair>, answer: Answer)
    requires ApplyPairs(pairs, answer) == RunUntilError(CallsOfPairs(pairs), answer)
    ensures TryApply(MapLike(pairs), answer) == RunUntilError(CallsOf(MapLike(pairs)), answer)
  {
    BracketedIsCut(|pairs|, CallsOfPairs(pairs), ApplyPairs(pairs, answer), answer);
  }

  lemma ListIsCut(elems: seq<Value>, answer: Answer)
    requires ApplyEach(elems, answer) == RunUntilError(CallsOfAll(elems), answer)
    ensures TryApply(ListLike(elems), answer) == RunUntilError(CallsOf(ListLike(elems)), answer)
  {
    BracketedIsCut(|elems|, CallsOfAll(elems), ApplyEach(elems, answer), answer);
  }

  lemma BracketedIsCut(n: nat, inner: seq<Call>, body: Outcome, answer: Answer)
    requires body == RunUntilError(inner, answer)
    ensures Then(One(BeginSequence(n), answer), Then(body, One(EndSequence, answer)))
         == RunUntilError([BeginSequence(n)] + inner + [EndSequence], answer)
  {
    RunOne(BeginSequence(n), answer);
    RunOne(EndSequence, answer);
    RunUntilErrorAppend(inner, [EndSequence], answer);
    RunUntilErrorAppend([BeginSequence(n)], inner + [EndSequence], answer);
    assert [BeginSequence(n)] + inner + [EndSequence] == [BeginSequence(n)] + (inner + [EndSequence]);
  }

  lemma {:induction false} ApplyAllIsCutFlattening(xs: seq<Value>, answer: Answer)
    ensures ApplyAll(xs, answer) == RunUntilError(CallsOfAll(xs), answer)
    decreases xs, 0
  {
    if |xs| > 0 {
      TryApplyIsCutFlattening(xs[0], answer);
      ApplyAllIsCutFlattening(xs[1..], answer);
      RunUntilErrorAppend(CallsOf(xs[0]), CallsOfAll(xs[1..]), answer);
    }
  }

  lemma {:induction false} ApplyEachIsCutFlattening(xs: seq<Value>, answer: Answer)
    ensures ApplyEach(xs, answer) == RunUntilError(CallsOfAll(xs), answer)
    decreases xs, 0
  {
    if |xs| > 0 {
      TryApplyIsCutFlattening(xs[0], answer);
      ApplyEachIsCutFlattening(xs[1..], answer);
      RunUntilErrorAppend(CallsOf(xs[0]), CallsOfAll(xs[1..]), answer);
    }
  }

  lemma {:induction false} ApplyPairIsCutFlattening(p: Pair, answer: Answer)
    ensures ApplyPair(p, answer) == RunUntilError(CallsOfPair(p), answer)
    decreases p, 0
  {
    TryApplyIsCutFlattening(p.key, answer);
    TryApplyIsCutFlattening(p.val, answer);
    RunUntilErrorAppend(CallsOf(p.key), CallsOf(p.val), answer);
  }

  lemma {:induction false} ApplyPairsIsCutFlattening(ps: seq<Pair>, answer: Answer)
    ensures ApplyPairs(ps, answer) == RunUntilError(CallsOfPairs(ps), answer)
    decreases ps, 0
  {
    if |ps| > 0 {
      ApplyPairIsCutFlattening(ps[0], answer);
      ApplyPairsIsCutFlattening(ps[1..], answer);
      RunUntilErrorAppend(CallsOfPair(ps[0]), CallsOfPairs(ps[1..]), answer);
    }
  }

  /** With no failing call the result is the default (no error); skipped
      types produce no calls. */
  lemma NoErrorGivesDefault(xs: seq<Value>, answer: Answer)
    requires forall c :: answer(c).None?
    ensures ApplyAll(xs, answer) == Outcome(CallsOfAll(xs), None)
  {
    ApplyAllIsCutFlattening(xs, answer);
  }
}
