/** Bookkeeping of a cooperatively scheduled actor: its handler slots, its
    behaviour stack and pending responses, and the two maps from stream slots
    to stream managers (established and pending). Message handlers and stream
    managers are opaque; what a manager does with a message is a parameter. */
module ScheduledActor {
  import opened Wrappers

  // -- nested enums -----------------------------------------------------------

  /** How an incoming message is routed. */
  datatype MessageCategory = Ordinary | Internal | Deferred

  /** Result of a one-shot activation. */
  datatype ActivationResult = Activated | ActivatedAndTerminated | ActivationSkipped | ActivationDropped

  // -- handler slots ----------------------------------------------------------

  /** The content of a handler slot: the empty function object, one of the
      runtime's built-in handlers, a user function, or a user function wrapped
      by one of the adapter overloads. */
  datatype Callback =
    | Null
    | PrintAndDrop
    | DefaultErrorHandler
    | DefaultDownHandler
    | DefaultNodeDownHandler
    | DefaultExitHandler
    | DefaultExceptionHandler
    | User(id: nat)
    | Wrapped(inner: Callback)

  /** The six customisation points of a scheduled actor. */
  datatype Slot = DefaultSlot | ErrorSlot | DownSlot | NodeDownSlot | ExitSlot | ExceptionSlot

  datatype Handlers = Handlers(
    defaultHandler: Callback,
    errorHandler: Callback,
    downHandler: Callback,
    nodeDownHandler: Callback,
    exitHandler: Callback,
    exceptionHandler: Callback)

  /** The handler a setter installs when it is given the empty function. */
  function Fallback(s: Slot): Callback {
    match s
    case DefaultSlot => PrintAndDrop
    case ErrorSlot => DefaultErrorHandler
    case DownSlot => DefaultDownHandler
    case NodeDownSlot => DefaultNodeDownHandler
    case ExitSlot => DefaultExitHandler
    case ExceptionSlot => DefaultExceptionHandler
  }

  function Get(hs: Handlers, s: Slot): Callback {
    match s
    case DefaultSlot => hs.defaultHandler
    case ErrorSlot => hs.errorHandler
    case DownSlot => hs.downHandler
    case NodeDownSlot => hs.nodeDownHandler
    case ExitSlot => hs.exitHandler
    case ExceptionSlot => hs.exceptionHandler
  }

  /** Plain assignment of one slot. */
  function Put(hs: Handlers, s: Slot, c: Callback): (r: Handlers)
    ensures Get(r, s) == c
    ensures forall t :: t != s ==> Get(r, t) == Get(hs, t)
  {
    match s
    case DefaultSlot => hs.(defaultHandler := c)
    case ErrorSlot => hs.(errorHandler := c)
    case DownSlot => hs.(downHandler := c)
    case NodeDownSlot => hs.(nodeDownHandler := c)
    case ExitSlot => hs.(exitHandler := c)
    case ExceptionSlot => hs.(exceptionHandler := c)
  }

  /** Every slot holds a callable function. */
  predicate AllInstalled(hs: Handlers) {
    forall s :: Get(hs, s) != Null
  }

  /** `set_default_handler`, `set_error_handler`, `set_down_handler`,
      `set_node_down_handler`, `set_exit_handler` and
      `set_exception_handler` taking a function object: a non-empty function
      is installed, the empty one reinstalls the slot's fallback. */
  function SetHandler(hs: Handlers, s: Slot, f: Callback): (r: Handlers)
    ensures Get(r, s) != Null
    ensures f != Null ==> Get(r, s) == f
    ensures f == Null ==> Get(r, s) == Fallback(s)
    ensures forall t :: t != s ==> Get(r, t) == Get(hs, t)
  {
    if f != Null then Put(hs, s, f) else Put(hs, s, Fallback(s))
  }

  /** The adapter overloads (`set_error_handler(T)` and friends) wrap the
      given function in a lambda and install the lambda; the wrapper is never
      empty, so the fallback is not installed even for an empty argument. */
  function SetWrappedHandler(hs: Handlers, s: Slot, f: Callback): (r: Handlers)
    ensures Get(r, s) != Fallback(s)
    ensures Get(r, s) != Null
    ensures Get(r, s) == Wrapped(f)
    ensures forall t :: t != s ==> Get(r, t) == Get(hs, t)
  {
    Put(hs, s, Wrapped(f))
  }

  /** An adapter overload is the plain setter applied to the wrapping
      lambda, and the lambda forwards to the function it was given. The
      slot never ends up holding the function itself, so the two setters
      never agree; for the empty function the plain setter installs the
      fallback where the adapter installs a lambda forwarding to nothing. */
  lemma WrappedIsPlainOfWrapper(hs: Handlers, s: Slot, f: Callback)
    ensures SetWrappedHandler(hs, s, f) == SetHandler(hs, s, Wrapped(f))
    ensures Get(SetWrappedHandler(hs, s, f), s).inner == f
    ensures SetWrappedHandler(hs, s, f) != SetHandler(hs, s, f)
  {
    assert f < Wrapped(f);
    assert Get(SetWrappedHandler(hs, s, f), s) != Get(SetHandler(hs, s, f), s);
  }

  /** Setting a handler keeps every slot callable. */
  lemma SetHandlerKeepsAllInstalled(hs: Handlers, s: Slot, f: Callback)
    requires AllInstalled(hs)
    ensures AllInstalled(SetHandler(hs, s, f))
  {
    var r := SetHandler(hs, s, f);
    forall t
      ensures Get(r, t) != Null
    {
      if t != s {
        assert Get(r, t) == Get(hs, t);
      }
    }
  }

  /** Resetting with the empty function is the same as installing the
      fallback explicitly, and setting twice is the same as setting once. */
  lemma SetHandlerResetAndIdempotent(hs: Handlers, s: Slot, f: Callback)
    ensures SetHandler(hs, s, Null) == SetHandler(hs, s, Fallback(s))
    ensures SetHandler(SetHandler(hs, s, f), s, f) == SetHandler(hs, s, f)
  {
  }

  // -- call_handler -------------------------------------------------------------

  /** One run of `call_handler` on a slot: the handler that ran, what the slot
      held while it ran, and what the slot holds afterwards. */
  datatype HandlerCall = HandlerCall(ran: Callback, duringCall: Callback, after: Callback)

  /** `call_handler(f, xs...)`: the slot's function is swapped into a
      temporary, the slot is left empty while the temporary runs, and the
      temporary is swapped back only if the slot is still empty afterwards.
      `installed` is what the running handler stored into the slot, if
      anything. An empty slot would make the call throw `bad_function_call`;
      that case does not arise, since every setter keeps the slots
      callable (`SetHandlerKeepsAllInstalled`), and the model then reports
      the empty function as the one that ran. */
  function CallHandler(slot: Callback, installed: Option<Callback>): (r: HandlerCall)
    ensures r.ran == slot
    ensures r.duringCall == Null
    ensures installed.None? ==> r.after == slot
    ensures installed.Some? && installed.value != Null ==> r.after == installed.value
    ensures installed.Some? && installed.value == Null ==> r.after == slot
  {
    var g := slot;
    var f := Null;
    var f' := match installed case Some(c) => c case None => f;
    var after := if f' == Null then g else f';
    HandlerCall(g, f, after)
  }

  /** Calling an installed handler never leaves its slot empty, and a call
      that installs nothing is invisible afterwards. */
  lemma CallHandlerKeepsSlotFilled(slot: Callback, installed: Option<Callback>)
    requires slot != Null
    ensures CallHandler(slot, installed).after != Null
    ensures CallHandler(slot, None).after == slot
  {
  }

  // -- behaviour and liveness ---------------------------------------------------

  type MessageId = nat
  type StreamSlot = nat
  type ManagerId = nat

  datatype Behavior = Behavior(id: nat)

  /** The parts of a scheduled actor that decide whether it is alive. The top
      of the behaviour stack is its last element; the awaited responses are a
      forward list whose front is element 0. */
  datatype ActorState = ActorState(
    behaviors: seq<Behavior>,
    awaited: seq<(MessageId, Behavior)>,
    multiplexed: map<MessageId, Behavior>,
    managers: map<StreamSlot, ManagerId>,
    pending: map<StreamSlot, ManagerId>)

  /** The state of an actor with nothing left to do. */
  const Quiescent := ActorState([], [], map[], map[], map[])

  /** `alive()`: a behaviour, an awaited or multiplexed response, or an
      established or pending stream manager. */
  predicate Alive(a: ActorState) {
    || |a.behaviors| > 0
    || |a.awaited| > 0
    || |a.multiplexed| > 0
    || |a.managers| > 0
    || |a.pending| > 0
  }

  /** An actor is alive exactly when it differs from the quiescent state. */
  lemma AliveIffNotQuiescent(a: ActorState)
    ensures Alive(a) <==> a != Quiescent
  {
    if !Alive(a) {
      assert a.multiplexed == map[];
      assert a.managers == map[];
      assert a.pending == map[];
    }
  }

  /** `has_behavior()`: a behaviour on the stack, which alone keeps the
      actor alive. */
  function HasBehavior(a: ActorState): (b: bool)
    ensures b <==> a.behaviors != []
    ensures b ==> Alive(a)
  {
    |a.behaviors| > 0
  }

  /** Every behaviour the actor currently holds, on the stack or waiting for
      a response. */
  function HeldBehaviors(a: ActorState): set<Behavior> {
    (set i | 0 <= i < |a.behaviors| :: a.behaviors[i]) + (set i | 0 <= i < |a.awaited| :: a.awaited[i].1)
  }

  /** `current_behavior()`: the handler of the front awaited response if
      there is one, otherwise the top of the behaviour stack. Calling it with
      neither reads an empty container, which the source leaves undefined. */
  function CurrentBehavior(a: ActorState): (r: Behavior)
    requires |a.awaited| > 0 || HasBehavior(a)
    ensures r in HeldBehaviors(a)
    ensures |a.awaited| > 0 ==> r == a.awaited[0].1
    ensures |a.awaited| == 0 ==> r == a.behaviors[|a.behaviors| - 1]
  {
    if |a.awaited| > 0 then a.awaited[0].1 else a.behaviors[|a.behaviors| - 1]
  }

  /** Having a current behaviour implies being alive, and an awaited response
      pre-empts the behaviour stack whatever the stack holds. */
  lemma CurrentBehaviorOfLiveActor(a: ActorState, b: Behavior)
    requires |a.awaited| > 0 || HasBehavior(a)
    ensures Alive(a)
    ensures |a.awaited| > 0 ==>
      CurrentBehavior(a.(behaviors := a.behaviors + [b])) == CurrentBehavior(a)
  {
  }

  // -- upstream stream messages -------------------------------------------------

  datatype StreamSlots = StreamSlots(sender: StreamSlot, receiver: StreamSlot)

  /** The upstream message shapes the templated handler receives (the
      `ack_open` overload is separate). */
  datatype UpstreamMsg = AckBatch(consumed: nat, credit: nat) | Drop | ForcedDrop(reason: nat)

  datatype Sec = StreamInitFailed | InvalidUpstream

  /** What the actor's manager reports after `handle(slots, x)`: whether it
      is `done()` and whether it still has an outbound path for the slot. */
  datatype Reaction = Reaction(done: bool, keepsPath: bool)

  datatype StreamEffect =
    | Handled(mgr: ManagerId, slots: StreamSlots, msg: UpstreamMsg)
    | Stopped(mgr: ManagerId, reason: Option<Sec>)
    | IrregularShutdown(slots: StreamSlots, cause: Sec)

  datatype UpstreamOutcome = UpstreamOutcome(actor: ActorState, effects: seq<StreamEffect>)

  /** `erase_stream_manager(mgr)` on one of the two slot maps: drops every
      slot that maps to `mgr`. The actor sweeps both maps with it. */
  function EraseManager(m: map<StreamSlot, ManagerId>, mgr: ManagerId): (r: map<StreamSlot, ManagerId>)
    ensures forall k :: k in r <==> k in m && m[k] != mgr
    ensures forall k :: k in r ==> r[k] == m[k]
  {
    map k | k in m && m[k] != mgr :: m[k]
  }

  /** The templated `handle_upstream_msg(slots, sender, x)`. */
  function HandleUpstream(
    a: ActorState, slots: StreamSlots, x: UpstreamMsg,
    react: (ManagerId, StreamSlots, UpstreamMsg) -> Reaction): (r: UpstreamOutcome)
    // everything but the two stream maps is untouched
    ensures r.actor.behaviors == a.behaviors && r.actor.awaited == a.awaited
    ensures r.actor.multiplexed == a.multiplexed
    // pending but not established: stopped with stream_init_failed, removed
    ensures slots.receiver !in a.managers && slots.receiver in a.pending ==>
      && r.actor.managers == a.managers
      && r.actor.pending == a.pending - {slots.receiver}
      && r.effects == [Stopped(a.pending[slots.receiver], Some(StreamInitFailed))]
    // in neither map: nothing changes, and only `ack_batch` is answered
    ensures slots.receiver !in a.managers && slots.receiver !in a.pending ==>
      && r.actor == a
      && (r.effects != [] <==> x.AckBatch?)
      && (x.AckBatch? ==> r.effects == [IrregularShutdown(slots, InvalidUpstream)])
    // established: the manager handles the message first
    ensures slots.receiver in a.managers ==>
      var mgr := a.managers[slots.receiver];
      var re := react(mgr, slots, x);
      && |r.effects| >= 1 && r.effects[0] == Handled(mgr, slots, x)
      && (re.done ==>
            && r.effects == [Handled(mgr, slots, x), Stopped(mgr, None)]
            && (forall k :: k in r.actor.managers ==> r.actor.managers[k] != mgr)
            && (forall k :: k in a.managers && a.managers[k] != mgr ==> k in r.actor.managers)
            && (forall k :: k in r.actor.pending ==> r.actor.pending[k] != mgr)
            && (forall k :: k in a.pending && a.pending[k] != mgr ==> k in r.actor.pending))
      && (!re.done ==> r.actor.pending == a.pending)
      && (!re.done && !re.keepsPath ==>
            r.actor.managers == a.managers - {slots.receiver} && r.effects == [Handled(mgr, slots, x)])
      && (!re.done && re.keepsPath ==> r.actor == a && r.effects == [Handled(mgr, slots, x)])
  {
    if slots.receiver !in a.managers then
      if slots.receiver in a.pending then
        UpstreamOutcome(a.(pending := a.pending - {slots.receiver}),
                        [Stopped(a.pending[slots.receiver], Some(StreamInitFailed))])
      else if x.AckBatch? then
        UpstreamOutcome(a, [IrregularShutdown(slots, InvalidUpstream)])
      else
        UpstreamOutcome(a, [])
    else
      var mgr := a.managers[slots.receiver];
      var re := react(mgr, slots, x);
      if re.done then
        UpstreamOutcome(a.(managers := EraseManager(a.managers, mgr), pending := EraseManager(a.pending, mgr)),
                        [Handled(mgr, slots, x), Stopped(mgr, None)])
      else if !re.keepsPath then
        UpstreamOutcome(a.(managers := a.managers - {slots.receiver}), [Handled(mgr, slots, x)])
      else
        UpstreamOutcome(a, [Handled(mgr, slots, x)])
  }

  /** An upstream message never registers a stream manager: both maps only
      lose entries, and the entries they keep are unchanged. Consequently a
      quiescent actor stays quiescent. */
  lemma HandleUpstreamOnlyShrinks(
    a: ActorState, slots: StreamSlots, x: UpstreamMsg,
    react: (ManagerId, StreamSlots, UpstreamMsg) -> Reaction)
    ensures var r := HandleUpstream(a, slots, x, react);
      && r.actor.managers.Keys <= a.managers.Keys
      && r.actor.pending.Keys <= a.pending.Keys
      && (forall k :: k in r.actor.managers ==> r.actor.managers[k] == a.managers[k])
      && (forall k :: k in r.actor.pending ==> r.actor.pending[k] == a.pending[k])
      && (!Alive(a) ==> !Alive(r.actor))
  {
    var r := HandleUpstream(a, slots, x, react);
    if !Alive(a) {
      assert a.managers == map[] && a.pending == map[];
      assert r.actor.managers.Keys <= a.managers.Keys;
      assert r.actor.managers == map[];
      assert r.actor.pending == map[];
    }
  }
}
