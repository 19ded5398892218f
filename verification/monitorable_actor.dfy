/** The monitorable-actor layer: links, the list of attachables (monitors,
    links and other cleanup actions, newest first), the system-message hook
    with a down handler, and the one-shot cleanup. */
module MonitorableActor {
  import opened Wrappers

  type ActorId = nat
  type Attachable = nat

  /** Calls into the link bookkeeping (`add_link`, `remove_link`), whose
      bodies are outside this model. */
  datatype LinkCall = AddLink(other: ActorId) | RemoveLink(other: ActorId)

  /** `link_to(x)`, both overloads: a null handle or the actor itself gives
      no call, any other actor exactly one `add_link`. */
  function LinkTo(self: ActorId, x: Option<ActorId>): (r: seq<LinkCall>)
    ensures r == [] <==> x.None? || x.value == self
    ensures r != [] ==> r == [AddLink(x.value)]
  {
    match x
    case Some(other) => if other != self then [AddLink(other)] else []
    case None => []
  }

  /** `unlink_from(x)` for actor handles: the mirror image of `LinkTo`. */
  function UnlinkFrom(self: ActorId, x: Option<ActorId>): (r: seq<LinkCall>)
    ensures r == [] <==> x.None? || x.value == self
    ensures r != [] ==> r == [RemoveLink(x.value)]
  {
    match x
    case Some(other) => if other != self then [RemoveLink(other)] else []
    case None => []
  }

  /** Linking and unlinking address the same peer, or neither happens. */
  lemma LinkUnlinkAgree(self: ActorId, x: Option<ActorId>)
    ensures |LinkTo(self, x)| == |UnlinkFrom(self, x)|
    ensures LinkTo(self, x) != [] ==> LinkTo(self, x)[0].other == UnlinkFrom(self, x)[0].other
    ensures LinkTo(self, Some(self)) == [] && UnlinkFrom(self, Some(self)) == []
  {
  }

  /** `attach_impl`: the new attachable becomes the head; the old list
      follows it unchanged. */
  function AttachImpl(head: seq<Attachable>, a: Attachable): (r: seq<Attachable>)
    ensures |r| == |head| + 1
    ensures r[0] == a && r[1..] == head
  {
    [a] + head
  }

  function Reverse(s: seq<Attachable>): (r: seq<Attachable>)
    ensures |r| == |s|
    ensures forall i :: 0 <= i < |s| ==> r[i] == s[|s| - 1 - i]
  {
    if |s| == 0 then [] else Reverse(s[1..]) + [s[0]]
  }

  /** Attaching several in turn. */
  function AttachAll(head: seq<Attachable>, xs: seq<Attachable>): (r: seq<Attachable>)
    decreases |xs|
  {
    if |xs| == 0 then head else AttachAll(AttachImpl(head, xs[0]), xs[1..])
  }

  /** The attachable list is last-in first-out: attaching `xs` in order
      puts them in front of the old list in reverse order. */
  lemma {:induction false} AttachAllReverses(head: seq<Attachable>, xs: seq<Attachable>)
    ensures AttachAll(head, xs) == Reverse(xs) + head
    decreases |xs|
  {
    if |xs| > 0 {
      AttachAllReverses(AttachImpl(head, xs[0]), xs[1..]);
      assert Reverse(xs) == Reverse(xs[1..]) + [xs[0]];
    }
  }

  // -- system messages --------------------------------------------------------

  datatype DownMsg = DownMsg(source: ActorId, reason: nat)

  datatype Content = Down(msg: DownMsg) | Exit(reason: nat) | Sys(tag: nat) | Ordinary(tag: nat)

  datatype SystemOutcome = SystemOutcome(handled: bool, downHandlerCalls: seq<DownMsg>, delegated: bool)

  /** `handle_system_message` with a down handler: a down message goes to
      the handler and counts as handled; anything else goes to the base
      handler (`base`, declared only), whose answer is returned. */
  function HandleSystemMessage(x: Content, base: Content -> bool): (r: SystemOutcome)
    ensures x.Down? ==> r.handled && r.downHandlerCalls == [x.msg] && !r.delegated
    ensures !x.Down? ==> r.delegated && r.downHandlerCalls == [] && r.handled == base(x)
    ensures |r.downHandlerCalls| <= 1
  {
    if x.Down? then SystemOutcome(true, [x.msg], false)
    else SystemOutcome(base(x), [], true)
  }

  // -- cleanup ----------------------------------------------------------------

  /** What cleanup looks at: whether the actor already exited, its fail
      state and its attachables. */
  datatype Lifecycle<R> = Lifecycle(exited: bool, failState: Option<R>, attachables: seq<Attachable>)

  function Running<R>(): (r: Lifecycle<R>)
    ensures !r.exited && r.attachables == []
  {
    Lifecycle(false, None, [])
  }

  datatype CleanupOutcome<R> = CleanupOutcome(performed: bool, life: Lifecycle<R>, ran: seq<Attachable>)

  /** `cleanup(reason, host)`: on an actor that already exited nothing is
      done; otherwise it records the reason, runs every attachable once,
      head first, and clears the list. */
  function Cleanup<R>(s: Lifecycle<R>, reason: R): (r: CleanupOutcome<R>)
    ensures r.performed <==> !s.exited
    ensures r.life.exited
    ensures !r.performed ==> r.life == s && r.ran == []
    ensures r.performed ==> r.ran == s.attachables && r.life.attachables == [] && r.life.failState == Some(reason)
  {
    if s.exited then CleanupOutcome(false, s, [])
    else CleanupOutcome(true, Lifecycle(true, Some(reason), []), s.attachables)
  }

  /** Cleanup side effects happen at most once: whatever reasons later
      calls bring, they run nothing and change nothing. */
  lemma CleanupAtMostOnce<R>(s: Lifecycle<R>, r1: R, r2: R)
    ensures var first := Cleanup(s, r1);
      var second := Cleanup(first.life, r2);
      !second.performed && second.ran == [] && second.life == first.life
  {
  }
}
