/** An actor pool: one address in front of a sequence of worker actors. The
    pool intercepts control messages (exit, down, put, delete, delete-all,
    get) and hands every other message to its dispatch policy. Locks are
    erased: each call is one atomic step from a pool state to a new state and
    a list of effects (messages delivered, monitors attached or detached). */
module ActorPool {
  import opened Wrappers
  import Seqs
  import MonitorableActor

  type ActorId = nat

  /** Values of a `size_t`. */
  const SizeMax: nat := 0x1_0000_0000_0000_0000
  type SizeT = x: nat | x < SizeMax

  datatype MsgKind = Async | Request | Response

  /** A message id: a request number plus whether the message is an
      asynchronous message, a request or a response. */
  datatype MessageId = MessageId(value: nat, kind: MsgKind)

  predicate IsRequest(m: MessageId) {
    m.kind == Request
  }

  /** `mid.response_id()`: the id a reply to `m` carries. */
  function ResponseId(m: MessageId): (r: MessageId)
    ensures r.value == m.value && r.kind == Response
  {
    m.(kind := Response)
  }

  /** The id of a message sent with `anon_send`. */
  const AnonymousId := MessageId(0, Async)

  datatype ExitReason = Normal | Unreachable | OutOfWorkers | UserDefined(code: nat)

  /** Message contents the pool distinguishes. */
  datatype Payload =
    | ExitMsg(reason: ExitReason)
    | DownMsg(source: ActorId, downReason: ExitReason)
    | PutWorker(worker: ActorId)
    | DeleteWorker(victim: ActorId)
    | DeleteAll
    | GetWorkers
    | WorkerList(workers: seq<ActorId>)
    | EmptyMessage
    | Other(tag: nat)

  /** A mailbox element as the pool sees it. */
  datatype Envelope = Envelope(sender: Option<ActorId>, mid: MessageId, payload: Payload)

  datatype Effect =
    | Deliver(to: ActorId, msg: Envelope)
    | AttachMonitor(worker: ActorId)
    | DetachMonitor(worker: ActorId)
    | CleanedUp(reason: ExitReason, ran: seq<MonitorableActor.Attachable>)
    | Unregister

  /** A dispatch policy. Round-robin keeps its counter; the random policy
      draws from an external source, given to `Dispatch` as a number. */
  datatype Policy = RoundRobin(pos: SizeT) | RandomPick | Broadcast

  datatype Pool = Pool(workers: seq<ActorId>, plannedReason: ExitReason, life: MonitorableActor.Lifecycle<ExitReason>, policy: Policy)

  // -- policies -------------------------------------------------------------------

  /** Copying a policy object: the round-robin copy constructor starts its
      counter at zero again, the others carry no state. */
  function CopyPolicy(p: Policy): (r: Policy)
    ensures p.RoundRobin? <==> r.RoundRobin?
    ensures r.RoundRobin? ==> r.pos == 0
    ensures !p.RoundRobin? ==> r == p
  {
    if p.RoundRobin? then RoundRobin(0) else p
  }

  datatype Dispatched = Dispatched(policy: Policy, effects: seq<Effect>)

  /** Applying a policy to a non-empty worker vector (the policies assert
      non-emptiness; `filter` guarantees it). */
  function Dispatch(pol: Policy, workers: seq<ActorId>, env: Envelope, draw: nat): (r: Dispatched)
    requires |workers| > 0
    ensures pol.RoundRobin? ==>
      && r.effects == [Deliver(workers[pol.pos % |workers|], env)]
      && r.policy == RoundRobin((pol.pos + 1) % SizeMax)
    ensures pol.RandomPick? ==>
      && r.policy == pol
      && exists i :: 0 <= i < |workers| && r.effects == [Deliver(workers[i], env)]
    ensures pol.Broadcast? ==>
      && r.policy == pol
      && |r.effects| == |workers|
      && forall i :: 0 <= i < |workers| ==>
           r.effects[i] == Deliver(workers[i], Envelope(env.sender, env.mid, env.payload))
  {
    match pol
    case RoundRobin(pos) =>
      Dispatched(RoundRobin((pos + 1) % SizeMax), [Deliver(workers[pos % |workers|], env)])
    case RandomPick =>
      var i := draw % |workers|;
      Dispatched(pol, [Deliver(workers[i], env)])
    case Broadcast =>
      Dispatched(pol, BroadcastCopies(workers, env))
  }

  /** A copied round-robin policy sends its first message to the first
      worker, whatever the original had reached; a copy of the other
      policies dispatches exactly as the original. */
  lemma CopiedPolicyDispatch(p: Policy, workers: seq<ActorId>, env: Envelope, draw: nat)
    requires |workers| > 0
    ensures p.RoundRobin? ==>
      Dispatch(CopyPolicy(p), workers, env, draw) == Dispatched(RoundRobin(1), [Deliver(workers[0], env)])
    ensures !p.RoundRobin? ==> Dispatch(CopyPolicy(p), workers, env, draw) == Dispatch(p, workers, env, draw)
  {
  }

  /** One copy of the message per worker, each with the original sender and
      message id. */
  function BroadcastCopies(workers: seq<ActorId>, env: Envelope): (r: seq<Effect>)
    ensures |r| == |workers|
    ensures forall i :: 0 <= i < |workers| ==>
      r[i] == Deliver(workers[i], Envelope(env.sender, env.mid, env.payload))
  {
    if |workers| == 0 then []
    else [Deliver(workers[0], Envelope(env.sender, env.mid, env.payload))] + BroadcastCopies(workers[1..], env)
  }

  // -- construction ---------------------------------------------------------------

  datatype Made = Made(pool: Pool, effects: seq<Effect>)

  /** `make(eu, num_workers, fac, pol)`: `num_workers` workers from the
      factory, in order, each monitored by the pool. */
  function Make(numWorkers: nat, fac: nat -> ActorId, pol: Policy): (r: Made)
    ensures |r.pool.workers| == numWorkers && |r.effects| == numWorkers
    ensures forall i :: 0 <= i < numWorkers ==>
      r.pool.workers[i] == fac(i) && r.effects[i] == AttachMonitor(fac(i))
    ensures r.pool.plannedReason == Normal && !r.pool.life.exited && r.pool.policy == pol
  {
    var ws := seq(numWorkers, (i: int) requires 0 <= i => fac(i));
    Made(Pool(ws, Normal, MonitorableActor.Running(), pol), seq(numWorkers, i requires 0 <= i < numWorkers => AttachMonitor(ws[i])))
  }

  // -- cleanup and quit -----------------------------------------------------------

  datatype Cleaned = Cleaned(performed: bool, pool: Pool, effects: seq<Effect>)

  /** `cleanup(reason, host)`: runs its side effects the first time only and
      reports whether it did. */
  function Cleanup(p: Pool, reason: ExitReason): (r: Cleaned)
    ensures r.performed <==> !p.life.exited
    ensures r.pool.life.exited
    ensures r.pool == p.(life := r.pool.life)
    ensures !r.performed ==> r.pool == p && r.effects == []
    ensures r.performed ==> r.pool.life.failState == Some(reason) && r.effects == [CleanedUp(reason, p.life.attachables)]
  {
    var c := MonitorableActor.Cleanup(p.life, reason);
    Cleaned(c.performed, p.(life := c.life), if c.performed then [CleanedUp(reason, c.ran)] else [])
  }

  /** `quit(host)`: cleans up with the planned reason and unregisters if the
      cleanup ran. */
  function Quit(p: Pool): (r: (Pool, seq<Effect>))
    ensures r.0.life.exited
    ensures r.0.workers == p.workers
    ensures p.life.exited ==> r.0 == p && r.1 == []
    ensures !p.life.exited ==> r.1 == [CleanedUp(p.plannedReason, p.life.attachables), Unregister]
  {
    var c := Cleanup(p, p.plannedReason);
    (c.pool, if c.performed then c.effects + [Unregister] else c.effects)
  }

  // -- filter ---------------------------------------------------------------------

  /** Messages `filter` always consumes, whatever the worker set. */
  predicate IsControl(x: Payload) {
    x.ExitMsg? || x.DownMsg? || x.PutWorker? || x.DeleteWorker? || x.DeleteAll? || x.GetWorkers?
  }

  datatype Filtered = Filtered(consumed: bool, pool: Pool, effects: seq<Effect>)

  /** The exit message every former worker receives. */
  function ExitNotices(workers: seq<ActorId>, content: Payload): (r: seq<Effect>)
    ensures |r| == |workers|
    ensures forall i :: 0 <= i < |workers| ==> r[i] == Deliver(workers[i], Envelope(None, AnonymousId, content))
  {
    if |workers| == 0 then []
    else [Deliver(workers[0], Envelope(None, AnonymousId, content))] + ExitNotices(workers[1..], content)
  }

  function DetachAll(workers: seq<ActorId>): (r: seq<Effect>)
    ensures |r| == |workers|
    ensures forall i :: 0 <= i < |workers| ==> r[i] == DetachMonitor(workers[i])
  {
    if |workers| == 0 then [] else [DetachMonitor(workers[0])] + DetachAll(workers[1..])
  }

  /** The exit branch of `filter`. */
  function OnExit(p: Pool, reason: ExitReason, content: Payload): (r: Filtered)
    ensures r.consumed
    ensures p.life.exited ==> r.pool == p && r.effects == []
    ensures !p.life.exited ==>
      && r.pool == Cleanup(p, reason).pool.(workers := [])
      && r.effects == [CleanedUp(reason, p.life.attachables)] + ExitNotices(p.workers, content) + [Unregister]
  {
    var c := Cleanup(p, reason);
    if c.performed then
      Filtered(true, c.pool.(workers := []), c.effects + ExitNotices(p.workers, content) + [Unregister])
    else Filtered(true, p, [])
  }

  /** The down branch of `filter`: the first occurrence of the failed worker
      is removed; a pool left without workers plans `out_of_workers` and
      quits. */
  function OnDown(p: Pool, source: ActorId): (r: Filtered)
    ensures r.consumed
    ensures source !in p.workers ==> r.pool.workers == p.workers
    ensures source in p.workers ==> r.pool.workers == Seqs.RemoveAt(p.workers, Seqs.Find(p.workers, source))
    ensures multiset(r.pool.workers) == multiset(p.workers) - multiset{source}
    ensures |r.pool.workers| > 0 ==> r.pool == p.(workers := r.pool.workers) && r.effects == []
    ensures |r.pool.workers| == 0 ==>
      && r.pool.plannedReason == OutOfWorkers
      && r.pool.life.exited
      && r.effects == (if p.life.exited then [] else [CleanedUp(OutOfWorkers, p.life.attachables), Unregister])
  {
    var i := Seqs.Find(p.workers, source);
    var ws := if i < |p.workers| then Seqs.RemoveAt(p.workers, i) else p.workers;
    var p1 := p.(workers := ws);
    if |ws| == 0 then
      var q := Quit(p1.(plannedReason := OutOfWorkers));
      Filtered(true, q.0, q.1)
    else Filtered(true, p1, [])
  }

  /** `actor_pool::filter` with the `get` branch guarded against an
      anonymous sender (see `FilterAsWritten`). */
  function Filter(p: Pool, env: Envelope): (r: Filtered)
    ensures r.consumed <==> IsControl(env.payload) || |p.workers| == 0
    ensures !r.consumed ==> r.pool == p && r.effects == []
    ensures r.pool.policy == p.policy
    ensures env.payload.PutWorker? ==>
      r.pool == p.(workers := p.workers + [env.payload.worker]) && r.effects == [AttachMonitor(env.payload.worker)]
    ensures env.payload.DeleteWorker? ==>
      var w := env.payload.victim;
      && (w in p.workers ==> r.pool == p.(workers := Seqs.RemoveAt(p.workers, Seqs.Find(p.workers, w)))
                             && r.effects == [DetachMonitor(w)])
      && (w !in p.workers ==> r.pool == p && r.effects == [])
    ensures env.payload.DeleteAll? ==> r.pool == p.(workers := []) && r.effects == DetachAll(p.workers)
    ensures env.payload.GetWorkers? ==>
      && r.pool == p
      && r.effects == (if env.sender.Some?
                       then [Deliver(env.sender.value, Envelope(None, ResponseId(env.mid), WorkerList(p.workers)))]
                       else [])
    ensures !IsControl(env.payload) && |p.workers| == 0 ==>
      && r.pool == p
      && r.effects == (if IsRequest(env.mid) && env.sender.Some?
                       then [Deliver(env.sender.value, Envelope(None, ResponseId(env.mid), EmptyMessage))]
                       else [])
  {
    var x := env.payload;
    if x.ExitMsg? then OnExit(p, x.reason, x)
    else if x.DownMsg? then OnDown(p, x.source)
    else if x.PutWorker? then Filtered(true, p.(workers := p.workers + [x.worker]), [AttachMonitor(x.worker)])
    else if x.DeleteWorker? then OnDelete(p, x.victim)
    else if x.DeleteAll? then Filtered(true, p.(workers := []), DetachAll(p.workers))
    else if x.GetWorkers? then OnGet(p, env)
    else OnOther(p, env)
  }

  /** The delete branch of `filter`: the first occurrence is removed. */
  function OnDelete(p: Pool, w: ActorId): (r: Filtered)
    ensures r.consumed
    ensures w in p.workers ==> r.pool == p.(workers := Seqs.RemoveAt(p.workers, Seqs.Find(p.workers, w)))
                               && r.effects == [DetachMonitor(w)]
    ensures w !in p.workers ==> r.pool == p && r.effects == []
  {
    var i := Seqs.Find(p.workers, w);
    if i < |p.workers| then Filtered(true, p.(workers := Seqs.RemoveAt(p.workers, i)), [DetachMonitor(w)])
    else Filtered(true, p, [])
  }

  /** The `get` branch of `filter`: the worker list goes back to the
      sender, if there is one. */
  function OnGet(p: Pool, env: Envelope): (r: Filtered)
    ensures r.consumed && r.pool == p
    ensures env.sender.Some? ==>
      r.effects == [Deliver(env.sender.value, Envelope(None, ResponseId(env.mid), WorkerList(p.workers)))]
    ensures env.sender.None? ==> r.effects == []
  {
    if env.sender.Some? then
      Filtered(true, p, [Deliver(env.sender.value, Envelope(None, ResponseId(env.mid), WorkerList(p.workers)))])
    else Filtered(true, p, [])
  }

  /** Any other message: consumed only by an empty pool, which answers a
      request with an empty message. */
  function OnOther(p: Pool, env: Envelope): (r: Filtered)
    ensures r.pool == p
    ensures r.consumed <==> |p.workers| == 0
    ensures !r.consumed ==> r.effects == []
    ensures r.consumed ==>
      r.effects == (if IsRequest(env.mid) && env.sender.Some?
                    then [Deliver(env.sender.value, Envelope(None, ResponseId(env.mid), EmptyMessage))]
                    else [])
  {
    if |p.workers| == 0 then
      if IsRequest(env.mid) && env.sender.Some? then
        Filtered(true, p, [Deliver(env.sender.value, Envelope(None, ResponseId(env.mid), EmptyMessage))])
      else Filtered(true, p, [])
    else Filtered(false, p, [])
  }

  datatype Fault = NullSenderDereference

  /** `actor_pool::filter` as written: the `get` branch calls
      `sender->enqueue` without the null check the empty-pool branch has, so
      an anonymous `get` dereferences a null pointer. */
  function FilterAsWritten(p: Pool, env: Envelope): (r: Result<Filtered, Fault>)
    ensures r.Failure? <==> env.payload.GetWorkers? && env.sender.None?
    ensures r.Success? ==> r.value == Filter(p, env)
  {
    if env.payload.GetWorkers? && env.sender.None? then Failure(NullSenderDereference)
    else Success(Filter(p, env))
  }

  /** An anonymous `get` — as sent by `anon_send(pool, sys_atom, get_atom)` —
      faults in the code as written; the guarded filter consumes it without
      effect. */
  lemma AnonymousGetFaults(p: Pool)
    ensures FilterAsWritten(p, Envelope(None, AnonymousId, GetWorkers)).Failure?
    ensures Filter(p, Envelope(None, AnonymousId, GetWorkers)) == Filtered(true, p, [])
  {
  }

  // -- enqueue --------------------------------------------------------------------

  datatype Enqueued = Enqueued(pool: Pool, effects: seq<Effect>)

  /** `actor_pool::enqueue`: control messages and messages to an empty pool
      stop at `filter`; everything else goes through the policy. */
  function Enqueue(p: Pool, env: Envelope, draw: nat): (r: Enqueued)
    ensures IsControl(env.payload) || |p.workers| == 0 ==>
      var f := Filter(p, env); r.pool == f.pool && r.effects == f.effects
    ensures !IsControl(env.payload) && |p.workers| > 0 ==>
      && r.pool.workers == p.workers
      && (forall e :: e in r.effects ==> e.Deliver? && e.to in p.workers && e.msg == env)
      && (p.policy.Broadcast? ==> |r.effects| == |p.workers|)
      && (!p.policy.Broadcast? ==> |r.effects| == 1)
  {
    var f := Filter(p, env);
    if f.consumed then Enqueued(f.pool, f.effects)
    else
      var d := Dispatch(p.policy, p.workers, env, draw);
      assert forall e :: e in d.effects ==> e.Deliver? && e.to in p.workers && e.msg == env by {
        forall e | e in d.effects
          ensures e.Deliver? && e.to in p.workers && e.msg == env
        {
          var k :| 0 <= k < |d.effects| && d.effects[k] == e;
          if p.policy.RoundRobin? {
            assert e == Deliver(p.workers[p.policy.pos % |p.workers|], env);
          }
        }
      }
      Enqueued(f.pool.(policy := d.policy), d.effects)
  }

  /** Ordinary messages sent one after the other; returns the final pool and
      the workers that received them, in order. */
  function SendAll(p: Pool, envs: seq<Envelope>): (r: (Pool, seq<ActorId>))
    decreases |envs|
  {
    if |envs| == 0 then (p, [])
    else
      var e := Enqueue(p, envs[0], 0);
      var rest := SendAll(e.pool, envs[1..]);
      (rest.0, (if |e.effects| > 0 && e.effects[0].Deliver? then [e.effects[0].to] else []) + rest.1)
  }

  predicate Ordinary(envs: seq<Envelope>) {
    forall i :: 0 <= i < |envs| ==> !IsControl(envs[i].payload)
  }

  /** Round-robin distribution: the i-th of a run of ordinary messages goes
      to worker (pos + i) mod n, as long as the counter does not wrap. */
  lemma {:induction false} RoundRobinDistribution(p: Pool, envs: seq<Envelope>)
    requires p.policy.RoundRobin? && |p.workers| > 0 && Ordinary(envs)
    requires p.policy.pos + |envs| < SizeMax
    ensures var r := SendAll(p, envs);
      && r.0.workers == p.workers
      && r.0.policy == RoundRobin(p.policy.pos + |envs|)
      && |r.1| == |envs|
      && forall i :: 0 <= i < |envs| ==> r.1[i] == p.workers[(p.policy.pos + i) % |p.workers|]
    decreases |envs|
  {
    if |envs| > 0 {
      var e := Enqueue(p, envs[0], 0);
      var d := Dispatch(p.policy, p.workers, envs[0], 0);
      assert e.pool == p.(policy := d.policy) && e.effects == d.effects;
      assert e.pool.policy == RoundRobin(p.policy.pos + 1);
      assert Ordinary(envs[1..]) by {
        forall i | 0 <= i < |envs[1..]| ensures !IsControl(envs[1..][i].payload) {
          assert envs[1..][i] == envs[i + 1];
        }
      }
      RoundRobinDistribution(e.pool, envs[1..]);
      var r := SendAll(p, envs);
      var rest := SendAll(e.pool, envs[1..]);
      assert r.1 == [p.workers[p.policy.pos % |p.workers|]] + rest.1;
      forall i | 0 <= i < |envs|
        ensures r.1[i] == p.workers[(p.policy.pos + i) % |p.workers|]
      {
        if i > 0 {
          assert r.1[i] == rest.1[i - 1];
          assert (p.policy.pos + 1) + (i - 1) == p.policy.pos + i;
        }
      }
    }
  }

  /** Three workers and six sequential sends from a fresh round-robin policy
      reach workers 0, 1, 2, 0, 1, 2. */
  lemma RoundRobinThreeWorkers(a: ActorId, b: ActorId, c: ActorId, envs: seq<Envelope>)
    requires |envs| == 6 && Ordinary(envs)
    ensures SendAll(Pool([a, b, c], Normal, MonitorableActor.Running(), RoundRobin(0)), envs).1 == [a, b, c, a, b, c]
  {
    var p := Pool([a, b, c], Normal, MonitorableActor.Running(), RoundRobin(0));
    RoundRobinDistribution(p, envs);
    TwoRounds([a, b, c], SendAll(p, envs).1);
  }

  lemma TwoRounds(ws: seq<ActorId>, got: seq<ActorId>)
    requires |ws| == 3 && |got| == 6
    requires forall i :: 0 <= i < 6 ==> got[i] == ws[(0 + i) % 3]
    ensures got == ws + ws
  {
    assert got[3] == ws[0] && got[4] == ws[1] && got[5] == ws[2];
  }

  /** `put` appends without checking membership, so a worker put twice sits
      in the pool twice and a single down message removes only one copy. */
  lemma PutDoesNotDeduplicate(w: ActorId)
    ensures Filter(Pool([w], Normal, MonitorableActor.Running(), Broadcast), Envelope(None, AnonymousId, PutWorker(w))).pool.workers == [w, w]
    ensures OnDown(Pool([w, w], Normal, MonitorableActor.Running(), Broadcast), w).pool.workers == [w]
  {
    assert Seqs.Find([w, w], w) == 0;
  }
}
