/** Scope guards. A guard holds a cleanup function and an `enabled` flag;
    destroying an enabled guard runs the function. The model keeps every
    guard ever created, whether it is still alive, and the log of functions
    that ran. Each constructed guard gets a fresh function token, so "runs
    at most once" is a statement about the log. */
module ScopeGuard {

  type Token = nat

  datatype Guard = Guard(fun: Token, enabled: bool, alive: bool)

  datatype World = World(guards: seq<Guard>, ran: seq<Token>, next: Token)

  const Empty := World([], [], 0)

  /** The functions still owed a run: one per alive, enabled guard. */
  function Owed(g: Guard): (m: multiset<Token>)
    ensures g.alive && g.enabled ==> m == multiset{g.fun}
    ensures !(g.alive && g.enabled) ==> m == multiset{}
  {
    if g.alive && g.enabled then multiset{g.fun} else multiset{}
  }

  function Pending(gs: seq<Guard>): (m: multiset<Token>)
  {
    if |gs| == 0 then multiset{} else Owed(gs[0]) + Pending(gs[1..])
  }

  lemma {:induction false} PendingAppend(gs: seq<Guard>, g: Guard)
    ensures Pending(gs + [g]) == Pending(gs) + Owed(g)
  {
    if |gs| == 0 {
      assert [g][1..] == [];
    } else {
      assert (gs + [g])[1..] == gs[1..] + [g];
      PendingAppend(gs[1..], g);
    }
  }

  lemma {:induction false} PendingUpdate(gs: seq<Guard>, i: nat, g: Guard)
    requires i < |gs|
    ensures Pending(gs[i := g]) + Owed(gs[i]) == Pending(gs) + Owed(g)
  {
    var hs := gs[i := g];
    if i == 0 {
      assert hs[1..] == gs[1..];
    } else {
      assert hs[1..] == gs[1..][i - 1 := g];
      assert gs[1..][i - 1] == gs[i];
      PendingUpdate(gs[1..], i - 1, g);
      AddInFront(Owed(gs[0]), Pending(hs[1..]), Owed(gs[i]), Pending(gs[1..]), Owed(g));
    }
  }

  lemma AddInFront(x: multiset<Token>, a: multiset<Token>, c: multiset<Token>, b: multiset<Token>, d: multiset<Token>)
    requires a + c == b + d
    ensures (x + a) + c == (x + b) + d
  {
    assert (x + a) + c == x + (a + c);
    assert (x + b) + d == x + (b + d);
  }

  lemma {:induction false} PendingTokensBelow(gs: seq<Guard>, bound: Token)
    requires forall k :: 0 <= k < |gs| ==> gs[k].fun < bound
    ensures forall t :: t in Pending(gs) ==> t < bound
  {
    if |gs| > 0 {
      PendingTokensBelow(gs[1..], bound);
    }
  }

  /** Every function is owed or has run at most once in total, and tokens
      are handed out below `next`. */
  ghost predicate Valid(w: World) {
    && (forall t :: (Pending(w.guards) + multiset(w.ran))[t] <= 1)
    && (forall k :: 0 <= k < |w.guards| ==> w.guards[k].fun < w.next)
    && (forall k :: 0 <= k < |w.ran| ==> w.ran[k] < w.next)
  }

  predicate IsGuard(w: World, i: nat) {
    i < |w.guards| && w.guards[i].alive
  }

  /** `scope_guard(f)` and `make_scope_guard(f)`: a new enabled guard with a
      fresh function, at index `|w.guards|`. */
  function Construct(w: World): (r: World)
    ensures |r.guards| == |w.guards| + 1 && r.guards[..|w.guards|] == w.guards
    ensures r.guards[|w.guards|] == Guard(w.next, true, true)
    ensures r.ran == w.ran
  {
    World(w.guards + [Guard(w.next, true, true)], w.ran, w.next + 1)
  }

  /** The move constructor: the new guard takes the function and the
      enabled state; the source is disabled. */
  function MoveFrom(w: World, i: nat): (r: World)
    requires IsGuard(w, i)
    ensures |r.guards| == |w.guards| + 1
    ensures r.guards[|w.guards|] == Guard(w.guards[i].fun, w.guards[i].enabled, true)
    ensures r.guards[i] == w.guards[i].(enabled := false)
    ensures forall k :: 0 <= k < |w.guards| && k != i ==> r.guards[k] == w.guards[k]
    ensures r.ran == w.ran
  {
    var g := w.guards[i];
    World(w.guards[i := g.(enabled := false)] + [Guard(g.fun, g.enabled, true)], w.ran, w.next)
  }

  /** `disable()`. */
  function Disable(w: World, i: nat): (r: World)
    requires IsGuard(w, i)
    ensures r.guards == w.guards[i := w.guards[i].(enabled := false)]
    ensures r.ran == w.ran
  {
    w.(guards := w.guards[i := w.guards[i].(enabled := false)])
  }

  /** The destructor: runs the function iff the guard is enabled. */
  function Destroy(w: World, i: nat): (r: World)
    requires IsGuard(w, i)
    ensures r.guards == w.guards[i := w.guards[i].(alive := false)]
    ensures w.guards[i].enabled ==> r.ran == w.ran + [w.guards[i].fun]
    ensures !w.guards[i].enabled ==> r.ran == w.ran
  {
    var g := w.guards[i];
    World(w.guards[i := g.(alive := false)], if g.enabled then w.ran + [g.fun] else w.ran, w.next)
  }

  lemma ConstructKeepsValid(w: World)
    requires Valid(w)
    ensures Valid(Construct(w))
  {
    var r := Construct(w);
    PendingAppend(w.guards, Guard(w.next, true, true));
    PendingTokensBelow(w.guards, w.next);
    assert w.next !in w.ran;
    forall t
      ensures (Pending(r.guards) + multiset(r.ran))[t] <= 1
    {
      assert (Pending(r.guards) + multiset(r.ran))[t]
          == (Pending(w.guards) + multiset(w.ran))[t] + (if t == w.next then 1 else 0);
    }
  }

  /** What the first conjunct of `Valid` bounds: every function owed or
      run, with multiplicity. */
  function Accounted(w: World): multiset<Token> {
    Pending(w.guards) + multiset(w.ran)
  }

  /** A world that accounts for no more than a valid one, hands out tokens
      below the same bound and keeps every function below it, is valid. */
  lemma ValidBelow(w: World, r: World)
    requires Valid(w) && Accounted(r) <= Accounted(w) && r.next == w.next
    requires forall k :: 0 <= k < |r.guards| ==> r.guards[k].fun < r.next
    requires forall k :: 0 <= k < |r.ran| ==> r.ran[k] < r.next
    ensures Valid(r)
  {
    forall t
      ensures Accounted(r)[t] <= 1
    {
      assert Accounted(r)[t] <= Accounted(w)[t];
    }
  }

  /** Moving a guard moves what it owes to the new guard. */
  lemma MoveAccounted(w: World, i: nat)
    requires IsGuard(w, i)
    ensures Accounted(MoveFrom(w, i)) == Accounted(w)
  {
    var g := w.guards[i];
    var mid := w.guards[i := g.(enabled := false)];
    var moved := Guard(g.fun, g.enabled, true);
    assert MoveFrom(w, i).guards == mid + [moved];
    assert Owed(g.(enabled := false)) == multiset{};
    PendingUpdate(w.guards, i, g.(enabled := false));
    PendingAppend(mid, moved);
  }

  lemma MoveKeepsValid(w: World, i: nat)
    requires Valid(w) && IsGuard(w, i)
    ensures Valid(MoveFrom(w, i))
  {
    var r := MoveFrom(w, i);
    MoveAccounted(w, i);
    forall k | 0 <= k < |r.guards|
      ensures r.guards[k].fun < r.next
    {
      if k < |w.guards| && k != i {
        assert r.guards[k] == w.guards[k];
      }
    }
    ValidBelow(w, r);
  }

  /** Disabling a guard stops it owing its function. */
  lemma DisableAccounted(w: World, i: nat)
    requires IsGuard(w, i)
    ensures Accounted(Disable(w, i)) <= Accounted(w)
  {
    var g := w.guards[i];
    PendingUpdate(w.guards, i, g.(enabled := false));
    var q := Pending(Disable(w, i).guards);
    assert q + Owed(g) == Pending(w.guards);
    Rearrange(q, Owed(g), multiset(w.ran));
  }

  lemma DisableKeepsValid(w: World, i: nat)
    requires Valid(w) && IsGuard(w, i)
    ensures Valid(Disable(w, i))
  {
    DisableAccounted(w, i);
    ValidBelow(w, Disable(w, i));
  }

  lemma Rearrange(q: multiset<Token>, o: multiset<Token>, m: multiset<Token>)
    ensures q + m <= (q + o) + m
    ensures q + (m + o) == (q + o) + m
  {
  }

  /** Destroying a guard moves the function it owes, if any, to the log. */
  lemma DestroyAccounted(w: World, i: nat)
    requires IsGuard(w, i)
    ensures Accounted(Destroy(w, i)) <= Accounted(w)
  {
    var g := w.guards[i];
    var r := Destroy(w, i);
    assert Owed(g.(alive := false)) == multiset{};
    PendingUpdate(w.guards, i, g.(alive := false));
    var q := Pending(r.guards);
    assert q + Owed(g) == Pending(w.guards);
    Rearrange(q, Owed(g), multiset(w.ran));
    if g.enabled {
      assert multiset(r.ran) == multiset(w.ran) + Owed(g);
    }
  }

  lemma DestroyKeepsValid(w: World, i: nat)
    requires Valid(w) && IsGuard(w, i)
    ensures Valid(Destroy(w, i))
  {
    var r := Destroy(w, i);
    DestroyAccounted(w, i);
    assert forall k :: 0 <= k < |r.guards| ==> r.guards[k].fun == w.guards[k].fun;
    ValidBelow(w, r);
  }

  /** In a valid world no function has run twice. */
  lemma RunsAtMostOnce(w: World)
    requires Valid(w)
    ensures forall a, b :: 0 <= a < b < |w.ran| ==> w.ran[a] != w.ran[b]
  {
    forall a, b | 0 <= a < b < |w.ran|
      ensures w.ran[a] != w.ran[b]
    {
      if w.ran[a] == w.ran[b] {
        assert w.ran == w.ran[..a] + [w.ran[a]] + w.ran[a + 1..b] + [w.ran[b]] + w.ran[b + 1..];
        assert multiset(w.ran)[w.ran[a]] >= 2;
        assert (Pending(w.guards) + multiset(w.ran))[w.ran[a]] >= 2;
      }
    }
  }

  /** A fresh guard destroyed runs its function exactly once, and the
      function had not run before. */
  lemma ConstructThenDestroyRunsOnce(w: World)
    requires Valid(w)
    ensures var r := Destroy(Construct(w), |w.guards|);
      && r.ran == w.ran + [w.next]
      && w.next !in w.ran
  {
  }

  /** A disabled guard's destruction runs nothing. */
  lemma DisabledNeverRuns(w: World, i: nat)
    requires IsGuard(w, i)
    ensures Destroy(Disable(w, i), i).ran == w.ran
  {
  }

  /** After a move, destroying the source runs nothing, and destroying the
      target runs the function iff the source was enabled. */
  lemma MoveTransfersTheRun(w: World, i: nat)
    requires IsGuard(w, i)
    ensures var m := MoveFrom(w, i);
      && Destroy(m, i).ran == w.ran
      && (w.guards[i].enabled ==> Destroy(m, |w.guards|).ran == w.ran + [w.guards[i].fun])
      && (!w.guards[i].enabled ==> Destroy(m, |w.guards|).ran == w.ran)
  {
  }
}
