/** The FRI parameters of the placeholder tests: a random list of folding
    steps that sum to `r`, and the scalar parameters derived from the
    degree. The random engine is a parameter: `draw(k)` is its `k`-th
    output, and the `k`-th random step is `1 + draw(k) % maxStep`, a value
    in `[1, maxStep]`. */
module FriParams {
  import Octets

  const SizeMax: nat := 0x1_0000_0000_0000_0000

  /** `max_step` is an `int`; the comparison with the remaining `size_t`
      converts it to `size_t`, so a negative value compares as a huge one. */
  function Bound(maxStep: int): (b: nat)
    requires -0x8000_0000 <= maxStep < 0x8000_0000
    ensures maxStep >= 0 ==> b == maxStep
    ensures maxStep < 0 ==> b >= SizeMax - 0x8000_0000
  {
    if maxStep < 0 then maxStep + SizeMax else maxStep
  }

  /** `max_step` is an `int` and `r` a `size_t`; the random branch needs a
      non-empty range `[1, max_step]`, so it must only be reached with a
      positive `max_step`. */
  predicate Defined(rem: nat, maxStep: int) {
    && -0x8000_0000 <= maxStep < 0x8000_0000
    && rem < SizeMax
    && (maxStep >= 1 || rem <= Bound(maxStep))
  }

  function Sum(s: seq<nat>): (n: nat)
  {
    if |s| == 0 then 0 else Sum(s[..|s| - 1]) + s[|s| - 1]
  }

  lemma {:induction false} SumAppend(a: seq<nat>, b: seq<nat>)
    ensures Sum(a + b) == Sum(a) + Sum(b)
    decreases |b|
  {
    if |b| == 0 {
      assert a + b == a;
    } else {
      assert (a + b)[..|a + b| - 1] == a + b[..|b| - 1];
      SumAppend(a, b[..|b| - 1]);
    }
  }

  function RandomStep(maxStep: int, draw: nat -> nat, k: nat): (s: nat)
    requires maxStep >= 1
    ensures 1 <= s <= maxStep
  {
    1 + draw(k) % maxStep
  }

  /** The end of the list once at most `maxStep` remains: `rem - 1` (when
      `rem > 1`), then 1. */
  function Tail(rem: nat): (t: seq<nat>)
    requires rem >= 1
  {
    if rem == 1 then [1] else [rem - 1, 1]
  }

  /** The list, by recursion on what remains; `k` is the number of draws
      made so far. */
  function Steps(rem: nat, maxStep: int, draw: nat -> nat, k: nat): (s: seq<nat>)
    requires Defined(rem, maxStep)
    decreases rem
  {
    if rem == 0 then []
    else if rem <= Bound(maxStep) then Tail(rem)
    else [RandomStep(maxStep, draw, k)] + Steps(rem - RandomStep(maxStep, draw, k), maxStep, draw, k + 1)
  }

  /** The steps sum to exactly what remained, every step is in
      `[1, maxStep]`, the list is empty iff nothing remained, and otherwise
      it ends with 1. */
  lemma {:induction false} StepsProperties(rem: nat, maxStep: int, draw: nat -> nat, k: nat)
    requires Defined(rem, maxStep)
    ensures var s := Steps(rem, maxStep, draw, k);
      && Sum(s) == rem
      && (forall i :: 0 <= i < |s| ==> 1 <= s[i] <= Bound(maxStep))
      && (s == [] <==> rem == 0)
      && (rem > 0 ==> s[|s| - 1] == 1)
    decreases rem
  {
    var b := Bound(maxStep);
    if rem > b {
      assert maxStep >= 1 && b == maxStep;
      var st := RandomStep(maxStep, draw, k);
      assert 1 <= st <= b < rem;
      assert Defined(rem - st, maxStep);
      var rest := Steps(rem - st, maxStep, draw, k + 1);
      assert Steps(rem, maxStep, draw, k) == [st] + rest;
      StepsProperties(rem - st, maxStep, draw, k + 1);
      ConsProperties(st, rest, rem, b);
    } else if rem > 0 {
      assert Steps(rem, maxStep, draw, k) == Tail(rem);
      TailProperties(rem, b);
    }
  }

  lemma TailProperties(rem: nat, b: nat)
    requires 1 <= rem <= b
    ensures var s := Tail(rem);
      && Sum(s) == rem
      && (forall i :: 0 <= i < |s| ==> 1 <= s[i] <= b)
      && s[|s| - 1] == 1
  {
    if rem > 1 {
      assert [rem - 1, 1][..1] == [rem - 1] && [rem - 1][..0] == [];
      assert Sum([rem - 1]) == rem - 1;
    } else {
      assert [1][..0] == [];
    }
  }

  /** A step in range in front of a list with the properties keeps them. */
  lemma ConsProperties(st: nat, rest: seq<nat>, rem: nat, b: nat)
    requires 1 <= st <= b && st < rem
    requires Sum(rest) == rem - st && (rest == [] <==> rem - st == 0) && rest[|rest| - 1] == 1
    requires forall i :: 0 <= i < |rest| ==> 1 <= rest[i] <= b
    ensures var s := [st] + rest;
      && Sum(s) == rem
      && (forall i :: 0 <= i < |s| ==> 1 <= s[i] <= b)
      && s[|s| - 1] == 1
  {
    SumAppend([st], rest);
    assert Sum([st]) == st by { assert [st][..0] == []; }
  }

  /** While more than `maxStep` remains, each step is a random draw. */
  lemma RandomWhileFar(rem: nat, maxStep: int, draw: nat -> nat, k: nat)
    requires Defined(rem, maxStep) && rem > Bound(maxStep)
    ensures maxStep >= 1
    ensures Steps(rem, maxStep, draw, k)[0] == RandomStep(maxStep, draw, k)
  {
  }

  /** A negative `max_step` never draws: the list is the tail at once. */
  lemma NegativeMaxStepNeverDraws(r: nat, maxStep: int, draw: nat -> nat)
    requires Defined(r, maxStep) && maxStep < 0 && r > 0
    ensures Steps(r, maxStep, draw, 0) == Tail(r)
  {
  }

  /** `generate_random_step_list(r, max_step)`. */
  method GenerateRandomStepList(r: nat, maxStep: int, draw: nat -> nat) returns (stepList: seq<nat>)
    requires Defined(r, maxStep)
    ensures stepList == Steps(r, maxStep, draw, 0)
  {
    stepList := [];
    var stepsSum := 0;
    var k := 0;
    while stepsSum != r
      invariant stepsSum <= r
      invariant stepList + Steps(r - stepsSum, maxStep, draw, k) == Steps(r, maxStep, draw, 0)
      decreases r - stepsSum
    {
      if r - stepsSum <= Bound(maxStep) {
        ghost var rem := r - stepsSum;
        ghost var before := stepList;
        while r - stepsSum != 1
          invariant stepsSum < r
          invariant rem > 1 ==> stepsSum <= r - 1
          invariant stepList == before || (rem > 1 && stepList == before + [rem - 1] && stepsSum == r - 1)
          invariant stepList == before ==> stepsSum == r - rem
          decreases r - stepsSum
        {
          stepList := stepList + [r - stepsSum - 1];
          stepsSum := stepsSum + (r - stepsSum - 1);
        }
        stepList := stepList + [1];
        stepsSum := stepsSum + 1;
        assert stepList == before + Tail(rem);
      } else {
        var st := RandomStep(maxStep, draw, k);
        stepList := stepList + [st];
        stepsSum := stepsSum + st;
        k := k + 1;
      }
    }
    assert Steps(0, maxStep, draw, k) == [];
  }

  datatype Params = Params(r: nat, maxDegree: nat, stepList: seq<nat>)

  /** The scalar part of `create_fri_params`: `r` is `degreeLog - 1` as an
      unsigned size, the maximal degree is `2^degreeLog - 1` computed in
      `int`, so `degreeLog` must be below 31. */
  method CreateFriParams(degreeLog: nat, maxStep: int, draw: nat -> nat) returns (p: Params)
    requires degreeLog < 31 && Defined((degreeLog - 1) % SizeMax, maxStep)
    ensures degreeLog >= 1 ==> p.r + 1 == degreeLog
    ensures degreeLog == 0 ==> p.r == SizeMax - 1
    ensures p.maxDegree + 1 == Octets.Pow2(degreeLog)
    ensures Sum(p.stepList) == p.r
    ensures forall i :: 0 <= i < |p.stepList| ==> 1 <= p.stepList[i] <= Bound(maxStep)
  {
    var r := (degreeLog - 1) % SizeMax;
    var steps := GenerateRandomStepList(r, maxStep, draw);
    StepsProperties(r, maxStep, draw, 0);
    p := Params(r, Octets.Pow2(degreeLog) - 1, steps);
  }
}
