# Actor runtime, padding encoders and test-pinned conversions

A Dafny model of the core of the `nil` actor runtime, with a few byte-level
encoders and test-defined conversions from the same repository. The model is
functional. Each operation is a pure state transition over immutable data,
and the effects it causes (messages delivered, monitors attached or
detached, handlers run) come back as lists. Locks, atomics and threads are
gone: each call is one atomic step.

Runtime pieces:

- **Scheduled actor** (`ScheduledActor`): handler slots with their
  fallbacks, `call_handler`'s swap-call-restore discipline, liveness, the
  current behaviour, and the templated upstream stream-message handler over
  the established and pending manager maps.
- **Actor pool** (`ActorPool`): `filter` (exit, down, put, delete,
  delete-all, get, and the empty-pool bounce), `enqueue`, `make`, `quit`,
  and the round-robin, random and broadcast dispatch policies.
- **Clock dispatch loop** (`ActorClock`): the events each public call pushes,
  the schedule and the actor lookup, one drained batch, and one turn of the
  loop.
- **Test coordinator** (`TestCoordinator`): `has_job`, `next_job`,
  `prioritize` and `run_jobs_filtered`.
- **Smaller runtime rules**:
  - linking and attachables (`MonitorableActor`);
  - channel flag bits (`AbstractChannel`);
  - mailbox-element construction (`MailboxElement`);
  - the packed option buffer of a config option (`ConfigOptions`);
  - the error renderer and the appenders of the actor-system configuration
    (`SpawnerConfig`);
  - the read inspector's traversal (`ReadInspector`);
  - the protocol-layer option flags (`OptionsParser`);
  - the scope guard (`ScopeGuard`).

Byte-level pieces:

- the ISO/IEC 9796-2 signature encoding and verification of digital
  signature schemes 2 and 3 (`Iso9796`);
- the DigestInfo prefixes of section 9.2 of RFC 3447 and the IEEE 1363 hash
  identifiers (`HashId`).

Behaviour fixed only by tests:

- the binary byte literal `_b` and the byte operators (`ByteLiteral`);
- the FRI step-list generator (`FriParams`);
- the 256-bit EVM word's conversions (`ZkevmWord`).

`Octets`, `Seqs` and `Wrappers` are shared helpers: big-endian bytes,
sequence search and filtering, and `Option`/`Result`.

Collaborators whose code is not part of this model become parameters:

- the hash function, as the `i`-th byte of the digest of `x`;
- MGF1, as the `i`-th byte of the mask stream of a seed;
- random number generators, as a draw function or a salt argument;
- stream managers' reactions, category correctors, `to_string`, and the
  answers of a concrete inspector.

## Model

| member | source | states |
|---|---|---|
| ScheduledActor.SetHandler | include/nil/actor/scheduled_actor.hpp:321-399 | a non-empty handler is installed in its slot; an empty one reinstalls that slot's default (`print_and_drop` for the default handler); the other slots are unchanged |
| ScheduledActor.SetWrappedHandler | include/nil/actor/scheduled_actor.hpp:328-407 | the adapter overloads install a lambda wrapping the given function, which is never empty, so the default is never reinstalled through them; other slots are unchanged |
| ScheduledActor.WrappedIsPlainOfWrapper | include/nil/actor/scheduled_actor.hpp:328-407 | an adapter overload is the plain setter applied to the wrapping lambda; the lambda forwards to the given function; the slot never holds the function itself |
| ScheduledActor.SetHandlerKeepsAllInstalled | include/nil/actor/scheduled_actor.hpp:321-399 | when every slot holds a callable, setting any slot to any value keeps every slot callable |
| ScheduledActor.SetHandlerResetAndIdempotent | include/nil/actor/scheduled_actor.hpp:321-326 | passing the empty function equals passing the default explicitly; setting a slot twice to the same value equals setting it once |
| ScheduledActor.CallHandler | include/nil/actor/scheduled_actor.hpp:727-748 | the slot's handler is the one that runs; the slot is empty while it runs; afterwards the slot holds the replacement installed during the call if that replacement is non-empty, and the original handler otherwise |
| ScheduledActor.CallHandlerKeepsSlotFilled | include/nil/actor/scheduled_actor.hpp:727-748 | calling a non-empty slot never leaves it empty, and a call that installs nothing restores the original |
| ScheduledActor.AliveIffNotQuiescent | include/nil/actor/scheduled_actor.hpp:803-806 | `alive()` holds iff at least one of the five containers (behaviour stack, awaited responses, multiplexed responses, established managers, pending managers) is non-empty |
| ScheduledActor.HasBehavior | include/nil/actor/scheduled_actor.hpp:626-628 | true iff the behaviour stack is non-empty; an actor with a behaviour is alive |
| ScheduledActor.CurrentBehavior | include/nil/actor/scheduled_actor.hpp:630-632 | the front awaited response's behaviour when one is awaited, otherwise the top of the behaviour stack; always one of the behaviours the actor holds |
| ScheduledActor.CurrentBehaviorOfLiveActor | include/nil/actor/scheduled_actor.hpp:630-632 | an actor with a current behaviour is alive; pushing a behaviour does not change the current one while a response is awaited |
| ScheduledActor.EraseManager | include/nil/actor/scheduled_actor.hpp:786-788 | exactly the slots mapped to the given manager are removed; all other entries keep their values |
| ScheduledActor.HandleUpstream | include/nil/actor/scheduled_actor.hpp:688-718 | pending-only slot: that manager is stopped with `stream_init_failed` and leaves the pending map. Unknown slot: nothing changes, and an irregular shutdown with `invalid_upstream` is emitted iff the message is `ack_batch`. Established slot: the manager handles the message; if done, it is stopped and all its entries are erased from both maps; if it lost its path, only that slot is erased |
| ScheduledActor.HandleUpstreamOnlyShrinks | include/nil/actor/scheduled_actor.hpp:688-718 | both manager maps only lose entries and keep the values of the rest; a quiescent actor stays quiescent |
| ActorPool.CopyPolicy | src/actor_pool.cpp:26-31 | copying a round-robin policy restarts its counter at 0; the other policies are copied unchanged |
| ActorPool.CopiedPolicyDispatch | src/actor_pool.cpp:26-38 | a copied round-robin policy sends its first message to the first worker; a copy of any other policy dispatches as the original |
| ActorPool.Dispatch | src/actor_pool.cpp:32-74 | round-robin delivers to `workers[pos mod n]` and increments `pos` modulo 2^64; random delivers to an index in `[0, n)`; broadcast delivers one copy per worker with the original sender and id |
| ActorPool.BroadcastCopies | src/actor_pool.cpp:46-52 | exactly one delivery per worker, in worker order, each carrying the original sender, message id and content |
| ActorPool.RoundRobinDistribution | src/actor_pool.cpp:32-38 | sequential ordinary messages go to `workers[(pos + i) mod n]` for the i-th message, and the counter advances by the number of messages |
| ActorPool.RoundRobinThreeWorkers | src/actor_pool.cpp:26-38 | from a fresh policy with three workers, six messages go to workers 0,1,2,0,1,2 |
| ActorPool.Make | src/actor_pool.cpp:95-105 | the pool holds `num_workers` workers from the factory, in creation order, each with a monitor attached to the pool |
| ActorPool.Quit | src/actor_pool.cpp:214-219 | a live pool runs its cleanup with the planned reason and unregisters; an exited pool does nothing |
| ActorPool.OnExit | src/actor_pool.cpp:136-151 | an exit message is always consumed; if cleanup runs, the worker set becomes empty, every former worker gets the exit message, and the pool unregisters; otherwise nothing happens |
| ActorPool.OnDown | src/actor_pool.cpp:152-167 | the first occurrence of the failed worker is removed (its multiset count drops by one); an unknown source leaves the workers unchanged; an empty result sets the planned reason to `out_of_workers` and quits the pool |
| ActorPool.Filter | src/actor_pool.cpp:168-211 | a message is consumed iff it is a control message or the pool is empty. `put` appends and attaches a monitor. `delete(w)` removes the first `w`, if any. Bulk delete empties the set and detaches every monitor. `get` answers the sender with a copy of the workers and changes nothing. An empty pool answers a request from a non-null sender with an empty response |
| ActorPool.FilterAsWritten | src/actor_pool.cpp:196-201 | as written, a `get` from a null sender dereferences a null pointer; every other message behaves as in `Filter` |
| ActorPool.AnonymousGetFaults | src/actor_pool.cpp:196-201 | an anonymous `get` faults in the code as written, while the guarded filter consumes it without effect |
| ActorPool.PutDoesNotDeduplicate | src/actor_pool.cpp:168-174 | putting a worker that is already present adds a second entry, and one down message removes only one of them |
| ActorPool.Enqueue | src/actor_pool.cpp:107-112 | control messages and messages to an empty pool stop at `filter`; any other message is delivered unchanged by the policy, to pool workers only: one delivery, or one per worker for broadcast |
| ActorClock.EventFor | src/detail/thread_safe_actor_clock.cpp:20-61 | each public call pushes the event of its own kind and of no other kind (one if-and-only-if per call), carrying exactly the due time, actor, timeout type, timeout id, message id, receiver, group, sender and content it was given; no call pushes an event of unknown type |
| ActorClock.CancelCallCancels | src/detail/thread_safe_actor_clock.cpp:20-45 | the event of a cancel call cancels the event of a set call iff both name the same actor and: any timeout for `cancel_timeouts`, an ordinary timeout of the same type for `cancel_ordinary_timeout`, a request timeout of the same message id for `cancel_request_timeout` |
| ActorClock.SetThenCancelCalls | src/detail/thread_safe_actor_clock.cpp:20-94 | a set call followed by a matching cancel call, drained together, leaves the loop running and nothing of that timeout in the schedule |
| ActorClock.Push | src/detail/thread_safe_actor_clock.cpp:145-147 | every call appends exactly one event to the queue and leaves the earlier events in place |
| ActorClock.AddEntry | src/detail/thread_safe_actor_clock.cpp:106-130 | scheduling inserts the event into the ordered schedule, which stays sorted by due time, and adds a timeout to the actor lookup |
| ActorClock.AddEntryPosition | src/detail/thread_safe_actor_clock.cpp:106-130 | the new entry is inserted, with nothing else changed, after every entry due no later than it and before every entry due later |
| ActorClock.EqualDueInArrivalOrder | src/detail/thread_safe_actor_clock.cpp:106-130 | of two entries added with the same due time, the one added first comes first |
| ActorClock.Cancel | src/detail/thread_safe_actor_clock.cpp:83-94 | the schedule keeps exactly the entries the cancellation does not match, every copy of them, in their original order; on a valid clock the lookup keeps exactly the indexed timeouts it does not match |
| ActorClock.CancelKeepsValid | src/detail/thread_safe_actor_clock.cpp:83-94 | after a cancellation the schedule is still sorted and the lookup still indexes exactly the scheduled timeouts |
| ActorClock.CancelAfterFiringIsNoOp | src/detail/thread_safe_actor_clock.cpp:83-94 | cancelling something no longer scheduled changes nothing |
| ActorClock.AddEntryKeepsValid | src/detail/thread_safe_actor_clock.cpp:106-130 | adding a schedule entry keeps the clock invariant |
| ActorClock.Step | src/detail/thread_safe_actor_clock.cpp:82-135 | each drained event goes to the branch of its kind; `drop_all` empties both structures; an unknown kind is logged and changes nothing |
| ActorClock.ProcessBatch | src/detail/thread_safe_actor_clock.cpp:76-137 | events are handled in queue order; the loop stops iff the batch holds a shutdown, which empties both structures and is the last event looked at |
| ActorClock.BatchSplit | src/detail/thread_safe_actor_clock.cpp:79-137 | draining `a + b` is draining `a`, then `b`, when `a` holds no shutdown |
| ActorClock.ShutdownDropsRest | src/detail/thread_safe_actor_clock.cpp:100-105 | the events behind a shutdown in the same batch are never processed |
| ActorClock.DropAllKeepsRunning | src/detail/thread_safe_actor_clock.cpp:95-99 | `drop_all` empties both the schedule and the lookup, and the loop keeps running |
| ActorClock.UnknownIsLogged | src/detail/thread_safe_actor_clock.cpp:131-134 | an event of unknown type is logged and leaves the clock unchanged |
| ActorClock.DrainingOnlyAdds | src/detail/thread_safe_actor_clock.cpp:106-130 | a batch of schedule events only adds to the schedule: nothing fires while a batch is drained |
| ActorClock.SetThenCancel | src/detail/thread_safe_actor_clock.cpp:83-110 | a timeout set and cancelled in the same batch is not in the schedule afterwards |
| ActorClock.SetThenCancelInTwoBatches | src/detail/thread_safe_actor_clock.cpp:76-137 | a timeout set in one batch and cancelled in the next, with no timed-out wait between them, is not in the schedule afterwards and the loop keeps running |
| ActorClock.WaitDeadline | src/detail/thread_safe_actor_clock.cpp:66-70 | the wait is unbounded for an empty schedule, and is otherwise bounded by the earliest due time |
| ActorClock.TriggerExpired | src/detail/thread_safe_actor_clock.cpp:70-73 | the entries due at or before the deadline fire, in order; the rest stay scheduled |
| ActorClock.LoopTurn | src/detail/thread_safe_actor_clock.cpp:64-79 | a timed-out wait fires expired entries instead of draining; otherwise the arrived batch is drained |
| TestCoordinator.NextJob | include/nil/actor/scheduler/test_coordinator.hpp:47-52 | an empty queue raises an error; otherwise the front job, or a bad-cast error when the job has the wrong type |
| TestCoordinator.HasJob | include/nil/actor/scheduler/test_coordinator.hpp:42-44 | true iff the job queue is non-empty |
| TestCoordinator.Prioritize | include/nil/actor/scheduler/test_coordinator.hpp:68-82 | returns true iff the handle is a resumable in the queue. On false the queue is unchanged; a job already at the front leaves it unchanged. Otherwise the job moves to the front and the queue keeps its multiset |
| TestCoordinator.PrioritizeKeepsOrder | include/nil/actor/scheduler/test_coordinator.hpp:80 | the promoted job's first occurrence moves to the front and all other jobs keep their relative order |
| TestCoordinator.RunJobsFiltered | include/nil/actor/scheduler/test_coordinator.hpp:85-100 | the jobs that run are exactly the matching jobs, in queue order; the jobs left are exactly the non-matching ones, in order; the returned count is the number of `run_once` calls |
| MonitorableActor.LinkTo | include/nil/actor/monitorable_actor.hpp:52-64 | linking to a null address or to oneself does nothing; otherwise `add_link` is called once with the target |
| MonitorableActor.UnlinkFrom | include/nil/actor/monitorable_actor.hpp:70-75 | unlinking from a null handle or from oneself does nothing; otherwise `remove_link` is called once |
| MonitorableActor.LinkUnlinkAgree | include/nil/actor/monitorable_actor.hpp:52-75 | link and unlink make the same self and null checks and address the same actor |
| MonitorableActor.AttachImpl | include/nil/actor/monitorable_actor.hpp:118-121 | the new attachable becomes the head, with the previous list unchanged behind it |
| MonitorableActor.AttachAllReverses | include/nil/actor/monitorable_actor.hpp:118-121 | attaching several in turn leaves them in reverse order in front of the old list |
| MonitorableActor.HandleSystemMessage | include/nil/actor/monitorable_actor.hpp:133-140 | a down message goes to the down handler exactly once and is reported handled; any other message goes to the base handler, whose answer is returned |
| MonitorableActor.Cleanup | include/nil/actor/monitorable_actor.hpp:79-84 | cleanup runs iff the actor has not exited: it records the reason, runs and clears the attachables, and marks the actor exited; otherwise nothing changes |
| MonitorableActor.CleanupAtMostOnce | include/nil/actor/monitorable_actor.hpp:79-84 | a second cleanup does nothing, whatever its reason |
| AbstractChannel.FlagLayout | include/nil/actor/abstract_channel.hpp:37-47 | the five flags are distinct single bits; the decorator mask is bind OR dot; all lie within the reserved mask 0xFFF00000 |
| AbstractChannel.ActorBitDecides | include/nil/actor/abstract_channel.hpp:49-51 | setting the actor bit makes `is_abstract_actor` true; clearing it makes it false |
| AbstractChannel.ActorBitSetIndependent | include/nil/actor/abstract_channel.hpp:49-51 | setting other bits does not change `is_abstract_actor` |
| AbstractChannel.ActorBitClearIndependent | include/nil/actor/abstract_channel.hpp:49-51 | clearing other bits does not change `is_abstract_actor` |
| AbstractChannel.GroupBitDecides | include/nil/actor/abstract_channel.hpp:53-55 | setting the group bit makes `is_abstract_group` true; clearing it makes it false |
| AbstractChannel.GroupBitSetIndependent | include/nil/actor/abstract_channel.hpp:53-55 | setting other bits does not change `is_abstract_group` |
| AbstractChannel.GroupBitClearIndependent | include/nil/actor/abstract_channel.hpp:53-55 | clearing other bits does not change `is_abstract_group` |
| AbstractChannel.DecoratorEitherBit | include/nil/actor/abstract_channel.hpp:57-59 | `is_actor_decorator` holds iff the bind bit or the dot bit is set |
| AbstractChannel.StoreThenLoad | include/nil/actor/abstract_channel.hpp:68-74 | reading after a store returns the stored word; storing what was read changes nothing |
| MailboxElement.CategoryCorrection | src/mailbox_element.cpp:22-29 | downstream and upstream messages have their id mapped by their category corrector; every other message keeps its id |
| MailboxElement.MakeMailboxElement | src/mailbox_element.cpp:34-42 | the element carries exactly the given sender and forwarding stack and the id corrected from the message as given; content-less messages are replaced by an empty built message |
| MailboxElement.CopyContent | src/mailbox_element.cpp:56-58 | returns the element's message, which the element keeps; the message is readable whenever the stored one is |
| MailboxElement.MoveContent | src/mailbox_element.cpp:52-54 | a move hands out the message a copy would return and leaves the element with its header and a moved-from, content-less message |
| MailboxElement.ContentOfMadeElement | src/mailbox_element.cpp:34-58 | copying or moving the content of a made element returns the message it was made from, or an empty message in place of one without content; after a move nothing is left to copy |
| MailboxElement.ConstructedContentIsValid | src/mailbox_element.cpp:34-58 | the content of a constructed element is always readable, and an ordinary message keeps its id and content |
| ConfigOptions.SplitName | src/config_option.cpp:37-39 | the name splits at its first comma into long name and short names; with no comma the short names are empty |
| ConfigOptions.TotalSize | src/config_option.cpp:40-45 | the buffer holds the four fields plus three separators |
| ConfigOptions.Make | src/config_option.cpp:31-68 | the buffer is laid out as `<category>.<long>,<short>,<description>`, with the separators at the stored positions; it needs at most 65535 characters |
| ConfigOptions.AccessorsRoundTrip | src/config_option.cpp:97-115 | `category()` returns the category without a leading '?'; `long_name()`, `short_names()` and `description()` return the pieces given; `full_name()` is category "." long name |
| ConfigOptions.FlatNameAndFlag | src/config_option.cpp:133-139 | `has_flat_cli_name()` holds iff the category began with '?' or is "global"; `is_flag()` holds iff the type name is "boolean" |
| ConfigOptions.Store | src/config_option.cpp:122-127 | with a value pointer the stored value lands there and nowhere else; without one nothing changes |
| ConfigOptions.Get | src/config_option.cpp:145-149 | none iff the value pointer or the getter is null; otherwise the value behind the pointer |
| ConfigOptions.StoreThenGet | src/config_option.cpp:122-149 | reading back a stored value returns it |
| ConfigOptions.Copy | src/config_option.cpp:70-76 | the copy equals the original, its buffer copied character by character |
| ConfigOptions.SwapExchanges | src/config_option.cpp:84-93 | `swap` exchanges the two options whole, and swapping back restores them |
| ConfigOptions.Assign | src/config_option.cpp:78-82 | copy-and-swap assignment leaves the target equal to the source, and the temporary holds the old target |
| SpawnerConfig.RenderError | include/nil/actor/spawner_config.hpp:158-168 | the text is the category name, ": ", then `to_string` of the code, followed by " (ctx)" iff the context is non-empty |
| SpawnerConfig.RenderedContextRecoverable | include/nil/actor/spawner_config.hpp:158-168 | the context can be read back from the rendered text, so two renderings of one code are equal iff their contexts are |
| SpawnerConfig.Load | include/nil/actor/spawner_config.hpp:173-179 | appends exactly one module factory and leaves the other vectors alone |
| SpawnerConfig.AddHookFactory | include/nil/actor/spawner_config.hpp:182-186 | appends exactly one hook factory and leaves the other vectors alone |
| SpawnerConfig.AddHookType | include/nil/actor/spawner_config.hpp:189-192 | adds exactly one hook factory, through `add_hook_factory` |
| SpawnerConfig.AddThreadHook | include/nil/actor/spawner_config.hpp:195-200 | appends exactly one thread hook and leaves the other vectors alone |
| SpawnerConfig.ChainedCallsAppendInOrder | include/nil/actor/spawner_config.hpp:173-200 | after chained calls, each vector holds exactly its own calls' entries in call order, whatever the interleaving |
| ReadInspector.RunUntilError | include/nil/actor/read_inspector.hpp:24-32 | the calls made are a prefix of the flattened calls; the walk stops at the first failing call, whose error is the result; with no failure every call runs and the result is no error |
| ReadInspector.TryApplyIsCutFlattening | include/nil/actor/read_inspector.hpp:63-99 | `try_apply` on any value equals its flattened call sequence cut at the first error. Empty and unsafe types give no calls; integers are squashed; arrays, tuples and inspectables go element-wise; lists and maps are bracketed by `begin_sequence(size)` and `end_sequence` |
| ReadInspector.ApplyAllIsCutFlattening | include/nil/actor/read_inspector.hpp:45-50 | `operator()(xs...)` processes the arguments left to right and stops at the first error |
| ReadInspector.ApplyEachIsCutFlattening | include/nil/actor/read_inspector.hpp:94-99 | the list loop runs the elements in order and stops at the first error |
| ReadInspector.ApplyPairsIsCutFlattening | include/nil/actor/read_inspector.hpp:88-93 | the map loop runs each key then its value, entry by entry, and stops at the first error |
| ReadInspector.NoErrorGivesDefault | include/nil/actor/read_inspector.hpp:46-49 | with no failing call the result is the default value (no error) and every flattened call is made |
| OptionsParser.FlagsAreMembership | include/nil/marshalling/protocol/detail/protocol_layer_base_options_parser.hpp:40-69 | each flag is set iff its option occurs anywhere in the list once bundles are flattened |
| OptionsParser.EmptyListNoFlags | include/nil/marshalling/protocol/detail/protocol_layer_base_options_parser.hpp:40-45 | the empty option list sets neither flag |
| OptionsParser.EditsThatChangeNothing | include/nil/marshalling/protocol/detail/protocol_layer_base_options_parser.hpp:63-69 | removing an `empty_option` changes nothing, and a tuple of options is the same as its members inlined in its place |
| OptionsParser.FlattenAppend | include/nil/marshalling/protocol/detail/protocol_layer_base_options_parser.hpp:67-69 | flattening distributes over concatenation |
| ScopeGuard.Construct | include/nil/actor/detail/scope_guard.hpp:25-26 | a new guard is enabled and holds a fresh function; earlier guards and runs are unchanged |
| ScopeGuard.MoveFrom | include/nil/actor/detail/scope_guard.hpp:28-30 | the new guard takes the source's function and enabled state, and the source is disabled |
| ScopeGuard.Disable | include/nil/actor/detail/scope_guard.hpp:39-41 | the guard is disabled and nothing runs |
| ScopeGuard.Destroy | include/nil/actor/detail/scope_guard.hpp:32-35 | destroying a guard runs its function iff it is enabled |
| ScopeGuard.ConstructKeepsValid | include/nil/actor/detail/scope_guard.hpp:25-26 | construction keeps the invariant: each function still owed by a live enabled guard has not run, and no function has run twice |
| ScopeGuard.MoveKeepsValid | include/nil/actor/detail/scope_guard.hpp:28-30 | moving keeps the invariant |
| ScopeGuard.DisableKeepsValid | include/nil/actor/detail/scope_guard.hpp:39-41 | disabling keeps the invariant |
| ScopeGuard.DestroyKeepsValid | include/nil/actor/detail/scope_guard.hpp:32-35 | destruction keeps the invariant |
| ScopeGuard.RunsAtMostOnce | include/nil/actor/detail/scope_guard.hpp:25-41 | in any reachable state no function has run twice |
| ScopeGuard.ConstructThenDestroyRunsOnce | include/nil/actor/detail/scope_guard.hpp:50-53 | a guard from `make_scope_guard` runs its function exactly once when destroyed |
| ScopeGuard.DisabledNeverRuns | include/nil/actor/detail/scope_guard.hpp:39-41 | after `disable()` destruction runs nothing |
| ScopeGuard.MoveTransfersTheRun | include/nil/actor/detail/scope_guard.hpp:28-35 | after a move, destroying the source runs nothing and destroying the target runs the function iff the source was enabled |
| Iso9796.Encode | include/nil/crypto3/pkpad/iso9796.hpp:13-82 | fails with "output too small" iff the output length is at most HASH + SALT + trailer length. Fails with "no hash identifier" only for an explicit trailer whose hash has no IEEE 1363 id. Otherwise the block has length ceil(bits/8) and its top bit cleared. It ends in 0xBC (implicit) or in the hash id then 0xCC (explicit) |
| Iso9796.Split | include/nil/crypto3/pkpad/iso9796.hpp:29-41 | a message longer than the capacity splits at the capacity into the recoverable prefix and the hashed suffix; a shorter one is all recoverable |
| Iso9796.HashInput | include/nil/crypto3/pkpad/iso9796.hpp:44-51 | the signed hash input is the 64-bit big-endian bit length of msg1, then msg1, the digest of msg2, and the salt |
| Iso9796.DataBlockLayout | include/nil/crypto3/pkpad/iso9796.hpp:53-61 | before masking the block is zeros, then 0x01 at the computed offset, then msg1, then the salt |
| Iso9796.MaskTwice | include/nil/crypto3/pkpad/iso9796.hpp:64 | masking twice with the same seed gives the data back |
| Iso9796.ScanDelimiter | include/nil/crypto3/pkpad/iso9796.hpp:119-135 | the constant-time scan visits every byte; msg1 starts one past the first non-zero byte; the input is bad iff there is no non-zero byte or it is not 0x01 |
| Iso9796.Recover | include/nil/crypto3/pkpad/iso9796.hpp:106-117 | the hash field is read from just before the trailer; the data block is unmasked with it and its top bit cleared |
| Iso9796.RecoverBlock | include/nil/crypto3/pkpad/iso9796.hpp:106-117 | unmasking an encoded block with its own hash field gives back the original data block and hash |
| Iso9796.TrailerOf | include/nil/crypto3/pkpad/iso9796.hpp:92-104 | a trailer is accepted as 0xBC (length 1), or as 0xCC preceded by the hash's non-zero IEEE 1363 id (length 2); anything else is rejected |
| Iso9796.VerifyAsWritten | include/nil/crypto3/pkpad/iso9796.hpp:84-182 | the verifier as written: the length check, the trailer check, the scan, the slice reads (faulting where they leave the block) and the comparison of two hashes over the recovered salt |
| Iso9796.ShortBlockFaults | include/nil/crypto3/pkpad/iso9796.hpp:94-111 | a one-byte block faults: [0xBC] makes the data-block size wrap around, [0x00] reads before the block |
| Iso9796.Verify | include/nil/crypto3/pkpad/iso9796.hpp:84-182 | corrected verifier: accepts only a block of `ceil(key_bits/8)` bytes that is long enough for its parts, whose scan succeeds, and whose hash field equals the hash recomputed from the raw message and the recovered salt |
| Iso9796.ShortBlockRejected | include/nil/crypto3/pkpad/iso9796.hpp:134-136 | the corrected verifier rejects every block too short for hash, salt, delimiter and trailer |
| Iso9796.VerifyRefinesAsWritten | include/nil/crypto3/pkpad/iso9796.hpp:84-182 | the corrected verifier never accepts what the code as written rejects or faults on |
| Iso9796.EncodeThenVerify | include/nil/crypto3/pkpad/iso9796.hpp:13-182 | round trip: a block encoded for a message is accepted for that message when the key size matches |
| Iso9796.UnrecoverablePartNotBound | include/nil/crypto3/pkpad/iso9796.hpp:149-181 | as written, the block encoded for a message is also accepted for any other raw message with the same recoverable prefix |
| Iso9796.VerifyBindsSignedHash | include/nil/crypto3/pkpad/iso9796.hpp:149-181 | the corrected verifier accepts a block only for raw messages whose signed hash equals the encoded one |
| Iso9796.MakeDS2 | include/nil/crypto3/pkpad/iso9796.hpp:415-418 | DS2 without a salt size uses a salt as long as the hash output |
| Iso9796.SaltSize | include/nil/crypto3/pkpad/iso9796.hpp:425-503 | DS3 uses salt size 0; DS2 uses its own salt size |
| Iso9796.NameShowsSchemeAndMode | include/nil/crypto3/pkpad/iso9796.hpp:434-486 | the name starts with the scheme's name, and names of otherwise-equal schemes differ iff their trailer modes differ |
| Iso9796.RawDataReturnsAllUpdates | include/nil/crypto3/pkpad/iso9796.hpp:440-449 | `raw_data` returns every byte passed to `update` since the last call, in order, and empties the buffer |
| Iso9796.Clone | include/nil/crypto3/pkpad/iso9796.hpp:430-432 | a clone has the same scheme and an empty buffer |
| Iso9796.EncodingOf | include/nil/crypto3/pkpad/iso9796.hpp:451-504 | DS2 encodes with its own salt size, trailer mode and the given salt; DS3 encodes with no salt |
| Iso9796.EncodingOfThenVerify | include/nil/crypto3/pkpad/iso9796.hpp:440-504 | whatever a scheme encodes for the data collected by `update`, the corrected verifier with the scheme's hash and salt size accepts for that data |
| HashId.PkcsHashId | include/nil/crypto3/pkpad/detail/hash_id.hpp:49-94 | "Parallel(MD5,SHA-160)" gives the empty sequence; each of the nine known names gives its table; any other name is an invalid-argument error naming the hash |
| HashId.PkcsIdsAreDigestInfoPrefixes | include/nil/crypto3/pkpad/detail/hash_id.hpp:12-37 | every table is a DER DigestInfo prefix: its outer length byte is the prefix length plus the digest length minus 2, and it ends in 05 00 04 followed by the digest length |
| HashId.Ieee1363HashId | include/nil/crypto3/pkpad/detail/hash_id.hpp:101-111 | 0x31 for "RIPEMD-160", 0x37 for "Whirlpool", and 0 for every other name |
| ByteLiteral.Literal | test/byte.cpp:37-51 | succeeds iff, ignoring `'` separators, the text has only binary digits and exactly eight of them; the value is the binary number; too few digits give the "too few digits" error |
| ByteLiteral.GroupedLiteral | test/byte.cpp:37-51 | any two 4-digit binary groups joined by `'` form a valid literal whose value is 16 times the high nibble plus the low nibble |
| ByteLiteral.TestLiterals | test/byte.cpp:56-68 | "0001'1100" is 0x1C, "1000'0001" is 0x81, "0110'1001" is 0x69 |
| ByteLiteral.ShiftLeftMovesBits | test/byte.cpp:71-82 | bit k of `b << n` is bit k-n of `b`, and zero below n: bits shifted past bit 7 are dropped |
| ByteLiteral.ShiftRightMovesBits | test/byte.cpp:84-95 | bit k of `b >> n` is bit k+n of `b`, and zero from 8-n up: the shift fills with zeros |
| ByteLiteral.OrIsBitwise | test/byte.cpp:97-102 | OR is bitwise |
| ByteLiteral.AndIsBitwise | test/byte.cpp:104-109 | AND is bitwise |
| ByteLiteral.XorIsBitwise | test/byte.cpp:111-116 | XOR is bitwise |
| ByteLiteral.NotIsBitwise | test/byte.cpp:118-120 | `~` flips every bit |
| ByteLiteral.TestResults | test/byte.cpp:71-120 | the asserted shift, OR, AND, XOR and NOT results |
| FriParams.StepsProperties | test/placeholder_common_data.cpp:55-75 | the steps sum to exactly `r`; every step is at least 1 and at most `max_step`; the list is empty iff `r` is 0 and otherwise ends with 1 |
| FriParams.RandomWhileFar | test/placeholder_common_data.cpp:69-71 | while more than `max_step` remains, the next step is a random draw in `[1, max_step]` |
| FriParams.NegativeMaxStepNeverDraws | test/placeholder_common_data.cpp:62 | a negative `max_step` compares as a huge unsigned value, so no step is drawn at random |
| FriParams.GenerateRandomStepList | test/placeholder_common_data.cpp:55-75 | the loop computes the reference step list: random steps while far, then `remaining - 1` (when above 1) and a final 1 |
| FriParams.CreateFriParams | test/placeholder_common_data.cpp:78-95 | `r` is `degree_log - 1` as a `size_t` (wrapping for 0), `max_degree + 1` is `2^degree_log`, and the step list sums to `r` |
| ZkevmWord.BytesRoundTrip | evm-assigner/lib/assigner/test/assigner_test.cpp:147-191 | the word built from at most 32 big-endian bytes has their big-endian value and converts back to the same bytes: a `uint256be` or a hash (32 bytes), an address (20 bytes) |
| ZkevmWord.Uint64RoundTrip | evm-assigner/lib/assigner/test/assigner_test.cpp:193-206 | a `uint64_t` becomes a word whose limb 0 holds it and whose other limbs are zero, and converts back unchanged |
| ZkevmWord.SetVal | evm-assigner/lib/assigner/test/assigner_test.cpp:308-319 | `set_val(v, i)` places `v` in 64-bit limb `i` and leaves the other limbs alone |
| ZkevmWord.SetValPlacesLimbs | evm-assigner/lib/assigner/test/assigner_test.cpp:308-319 | setting limbs 0..3 of a zero word gives the sum of each value shifted by 64 times its index |
| ZkevmWord.LoadPartialData | evm-assigner/lib/assigner/test/assigner_test.cpp:241-251 | `load_partial_data` puts the big-endian value of up to 8 bytes in the given limb and leaves the other limbs alone |
| ZkevmWord.LoadPartialWords | evm-assigner/lib/assigner/test/assigner_test.cpp:226-254 | loading the 2-byte top chunk into limb 3, then the three full words into limbs 2, 1 and 0, gives the big-endian value of all 26 bytes |
| ZkevmWord.HalvesRoundTrip | evm-assigner/lib/assigner/test/assigner_test.cpp:295-306 | `w_hi` and `w_lo` of `(hi << 128) + lo` return `hi` and `lo` |
| ZkevmWord.ToHexDenotes | evm-assigner/lib/assigner/test/assigner_test.cpp:153 | `intx::to_string(n, 16)` denotes `n` and has a leading '0' only for zero |
| ZkevmWord.CanonicalHex | evm-assigner/lib/assigner/test/assigner_test.cpp:131-145 | a hex string with no leading zero is the canonical text of its value |
| ZkevmWord.BytesToStringIsHex | evm-assigner/lib/assigner/test/assigner_test.cpp:131-159 | the helper's text equals `to_string(value, 16)` of the bytes' big-endian value when that value is non-zero, and is empty for zero |
| Octets.BigEndianRoundTrip | evm-assigner/lib/assigner/test/assigner_test.cpp:147-159 | a value below 256^n survives n-byte big-endian encoding and decoding |
| Seqs.RotateToFront | include/nil/actor/scheduler/test_coordinator.hpp:80 | `std::rotate(b, i, i + 1)`: element i comes first and the others keep their order, so the multiset is unchanged |

## Left out

- Concurrency: the pool's upgrade and unique locks, the round-robin counter's atomicity, relaxed atomics on the flag word, and the clock's thread-safe queue and timed wait. Each operation is one sequential step.
- The deprecated stream factory templates of the scheduled actor (`make_source`, `make_sink`, `make_stage`, `make_continuous_*`). They wrap stream drivers that are not part of this model.
- `consume`, `activate`, `categorize` and `advance_streams` of the scheduled actor: declared only.
- `cleanup`'s body in the monitorable actor is not part of this model. `MonitorableActor.Cleanup` states the documented contract: it does nothing once the actor has exited.
- Some clock pieces are not part of this model: `add_schedule_entry`, the cancellation `handle` overloads and `trigger_expired_timeouts`. They are modelled by their stated effect: ordered insertion, removal of matching entries, and firing of due entries.
- `run_once` of the test coordinator is not part of this model. It is taken to run and remove the front job.
- The stream manager's `handle`, `done`, `stop` and `out().path` are a reaction parameter of `ScheduledActor.HandleUpstream`.
- `mailbox_category_corrector` and the config option's meta-state functions (`check`, `parse`, `store`, `get`) are parameters or reduced to a type name and a getter flag.
- `add_ascii<2>` is not part of this model. `ByteLiteral.Literal` takes it to accept '0' and '1' and to fail once the value would exceed 255.
- The hash function, MGF1 (appendix B.2.1 of RFC 3447), the random number generator and the constant-time helpers (`ct::poison`, `ct::select`) are parameters or plain values. `Iso9796.ScanDelimiter` keeps the mask arithmetic of the loop.
- The iterator-based `iso_9796` class templates and the DS2/DS3 `verify` overrides of iso9796.hpp use names that are not defined, so they are not modelled. `Iso9796.Verify` models the free verification function they would call.
- Iso9796.Encode: the `size_t` arithmetic of the offset is not wrapped. The failure guard ensures it is never negative.
- `HashId.DigestLength` takes the digest sizes from the hash standards, since the hash implementations are not part of this model.
- Field, curve, pairing and KDF code; the ZK circuit and prover code; the `mul` and `field_bitwise_and` tests of the assigner; I/O and OS code; compile-time-only headers. All of these are outside the modelled core.
- Config parsing of the actor-system configuration (`parse`, `parse_config*`): declared only.
- The `zkevm_word` implementation is not part of this model. `ZkevmWord` is a number below 2^256 whose operations satisfy the tests' assertions.
- ZkevmWord.FromBytes: the byte order of raw loads is taken to be big-endian, as in the other conversions. The load/store test uses 0xFFFFFFFF, whose bytes are all equal, so it does not pin the byte order.
- `to_field_as_address` of the address test converts to a field element, which is outside the modelled core.
- FriParams.CreateFriParams: `1 << degree_log` is an `int` shift, so `degree_log` is limited to values below 31.
- FriParams.GenerateRandomStepList: `max_step == 0` with `r > 0` is excluded by `FriParams.Defined`. The loop would then build `uniform_int_distribution(1, 0)`, whose range is empty, which the standard library leaves undefined.
- FriParams.RandomStep: the uniform distribution is abstracted to `1 + draw(k) % max_step`, which lies in the same range but does not model the distribution's fairness.

## Findings

| source | as written | input that shows it | evidently intended | confidence | as-written member | corrected member |
|---|---|---|---|---|---|---|
| src/actor_pool.cpp:196-201 | the `get` branch calls `sender->enqueue` without checking the sender; the empty-pool branch below does check | `anon_send(pool, sys_atom::value, get_atom::value)`: a `get` with a null sender | reply only when the sender is non-null, as the empty-pool branch does | not executed | ActorPool.FilterAsWritten, ActorPool.AnonymousGetFaults | ActorPool.Filter |
| include/nil/crypto3/pkpad/iso9796.hpp:94-111 | the trailer bytes are read and `coded.size() - HASH_SIZE - tLength` is computed before any check that the block holds a hash and a trailer | `key_bits = 8` with coded `[0x00]` reads `coded[-1]`; with `[0xBC]` the data-block size wraps around | reject blocks shorter than hash, salt, delimiter and trailer before reading | not executed | Iso9796.VerifyAsWritten, Iso9796.ShortBlockFaults | Iso9796.Verify, Iso9796.ShortBlockRejected |
| include/nil/crypto3/pkpad/iso9796.hpp:149-181 | H2 and H3 are both computed over the same `msg2` digest and salt, and the hash field of the block is never compared, so the unrecoverable part of the raw message is not checked | a block encoded for message `m` longer than the capacity, verified against `m` with its unrecoverable suffix changed | compare the recomputed hash with the hash field recovered from the block | not executed | Iso9796.VerifyAsWritten, Iso9796.UnrecoverablePartNotBound | Iso9796.Verify, Iso9796.VerifyBindsSignedHash |

## Notes on the code

- `put` appends the worker even when it is already in the pool, so one worker can be held twice (`ActorPool.PutDoesNotDeduplicate`).
- The default handler's fallback is `print_and_drop`.
- `pkcs_hash_id` and `ieee1363_hash_id` compare a variable `name` while their parameter is `hash_name`. The model reads both as the parameter.
- `bytes_to_string` of the assigner tests returns the empty string for an all-zero input, while `intx::to_string(0, 16)` is "0". No test compares a zero word.
