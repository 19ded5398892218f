/** The thread-safe actor clock. Public calls push one typed event onto a
    queue; a dispatch loop waits for events or for the earliest due time,
    drains every queued event into its schedule, and fires expired entries
    when a wait times out. The blocking queue is replaced by the batch it
    hands over (`Wake.Arrived`) or by the time at which the wait gave up
    (`Wake.TimedOut`). */
module ActorClock {
  import opened Wrappers
  import Seqs

  type Time = int
  type ActorId = nat

  datatype Event =
    | OrdinaryTimeout(due: Time, owner: ActorId, kind: string, id: nat)
    | MultiTimeout(due: Time, owner: ActorId, kind: string, id: nat)
    | RequestTimeout(due: Time, owner: ActorId, mid: nat)
    | ActorMsg(due: Time, receiver: ActorId, content: nat)
    | GroupMsg(due: Time, target: nat, sender: ActorId, content: nat)
    | OrdinaryTimeoutCancellation(owner: ActorId, kind: string)
    | RequestTimeoutCancellation(owner: ActorId, mid: nat)
    | TimeoutsCancellation(owner: ActorId)
    | DropAll
    | Shutdown
    | Unknown(subtype: nat)

  /** Timeouts: the entries the actor lookup indexes by owner. */
  predicate IsTimeout(e: Event) {
    e.OrdinaryTimeout? || e.MultiTimeout? || e.RequestTimeout?
  }

  /** Events that become schedule entries. */
  predicate IsScheduled(e: Event) {
    IsTimeout(e) || e.ActorMsg? || e.GroupMsg?
  }

  predicate IsCancellation(e: Event) {
    e.OrdinaryTimeoutCancellation? || e.RequestTimeoutCancellation? || e.TimeoutsCancellation?
  }

  // -- public calls -----------------------------------------------------------

  /** The clock's public interface, one constructor per call. */
  datatype ClockCall =
    | SetOrdinaryTimeout(t: Time, self: ActorId, kind: string, id: nat)
    | SetRequestTimeout(t: Time, self: ActorId, mid: nat)
    | SetMultiTimeout(t: Time, self: ActorId, kind: string, id: nat)
    | CancelOrdinaryTimeout(self: ActorId, kind: string)
    | CancelRequestTimeout(self: ActorId, mid: nat)
    | CancelTimeouts(self: ActorId)
    | ScheduleActorMessage(t: Time, receiver: ActorId, content: nat)
    | ScheduleGroupMessage(t: Time, target: nat, sender: ActorId, content: nat)
    | CancelAll
    | CancelDispatchLoop

  predicate IsSetCall(c: ClockCall) {
    c.SetOrdinaryTimeout? || c.SetRequestTimeout? || c.SetMultiTimeout?
  }

  predicate IsCancelCall(c: ClockCall) {
    c.CancelOrdinaryTimeout? || c.CancelRequestTimeout? || c.CancelTimeouts?
  }

  /** The event a call pushes. */
  function EventFor(c: ClockCall): (e: Event)
    ensures IsTimeout(e) <==> IsSetCall(c)
    ensures IsScheduled(e) <==> IsSetCall(c) || c.ScheduleActorMessage? || c.ScheduleGroupMessage?
    ensures IsCancellation(e) <==> IsCancelCall(c)
    ensures e.OrdinaryTimeout? <==> c.SetOrdinaryTimeout?
    ensures e.RequestTimeout? <==> c.SetRequestTimeout?
    ensures e.MultiTimeout? <==> c.SetMultiTimeout?
    ensures e.OrdinaryTimeoutCancellation? <==> c.CancelOrdinaryTimeout?
    ensures e.RequestTimeoutCancellation? <==> c.CancelRequestTimeout?
    ensures e.TimeoutsCancellation? <==> c.CancelTimeouts?
    ensures e.ActorMsg? <==> c.ScheduleActorMessage?
    ensures e.GroupMsg? <==> c.ScheduleGroupMessage?
    ensures e.DropAll? <==> c.CancelAll?
    ensures e.Shutdown? <==> c.CancelDispatchLoop?
    ensures !e.Unknown?
    ensures IsScheduled(e) ==> e.due == c.t
    ensures IsTimeout(e) || IsCancellation(e) ==> e.owner == c.self
    ensures e.OrdinaryTimeout? || e.MultiTimeout? || e.OrdinaryTimeoutCancellation? ==> e.kind == c.kind
    ensures e.OrdinaryTimeout? || e.MultiTimeout? ==> e.id == c.id
    ensures e.RequestTimeout? || e.RequestTimeoutCancellation? ==> e.mid == c.mid
    ensures e.ActorMsg? ==> e.receiver == c.receiver && e.content == c.content
    ensures e.GroupMsg? ==> e.target == c.target && e.sender == c.sender && e.content == c.content
  {
    match c
    case SetOrdinaryTimeout(t, self, kind, id) => OrdinaryTimeout(t, self, kind, id)
    case SetRequestTimeout(t, self, mid) => RequestTimeout(t, self, mid)
    case SetMultiTimeout(t, self, kind, id) => MultiTimeout(t, self, kind, id)
    case CancelOrdinaryTimeout(self, kind) => OrdinaryTimeoutCancellation(self, kind)
    case CancelRequestTimeout(self, mid) => RequestTimeoutCancellation(self, mid)
    case CancelTimeouts(self) => TimeoutsCancellation(self)
    case ScheduleActorMessage(t, receiver, content) => ActorMsg(t, receiver, content)
    case ScheduleGroupMessage(t, target, sender, content) => GroupMsg(t, target, sender, content)
    case CancelAll => DropAll
    case CancelDispatchLoop => Shutdown
  }

  /** `push`: every public call appends exactly one event to the queue. */
  function Push(queue: seq<Event>, c: ClockCall): (r: seq<Event>)
    ensures |r| == |queue| + 1
    ensures r[..|queue|] == queue
    ensures r[|queue|] == EventFor(c)
  {
    queue + [EventFor(c)]
  }

  // -- the schedule -----------------------------------------------------------

  /** The schedule, ordered by due time, and the actor lookup: the multiset
      of timeout entries, indexed by their owner in the source. */
  datatype Clock = Clock(schedule: seq<Event>, lookup: multiset<Event>)

  const EmptyClock := Clock([], multiset{})

  predicate Sorted(s: seq<Event>) {
    && (forall i :: 0 <= i < |s| ==> IsScheduled(s[i]))
    && (forall i, j :: 0 <= i < j < |s| ==> s[i].due <= s[j].due)
  }

  /** The clock invariant: the schedule is ordered and the lookup indexes
      exactly its timeout entries. */
  predicate Valid(c: Clock) {
    Sorted(c.schedule) && c.lookup == multiset(Seqs.Filter(c.schedule, IsTimeout))
  }

  /** Index of the first entry due strictly after `t` (the multimap's
      upper bound): a new entry goes after every entry with an equal due
      time, so equal due times fire in arrival order. */
  function UpperBound(s: seq<Event>, t: Time): (k: nat)
    requires Sorted(s)
    ensures k <= |s|
    ensures forall i :: 0 <= i < k ==> s[i].due <= t
    ensures forall i :: k <= i < |s| ==> s[i].due > t
  {
    if |s| == 0 || s[0].due > t then 0 else 1 + UpperBound(s[1..], t)
  }

  /** `add_schedule_entry`: insert a scheduled event and, for timeouts,
      index it in the lookup. */
  function AddEntry(c: Clock, e: Event): (r: Clock)
    requires Sorted(c.schedule) && IsScheduled(e)
    ensures Sorted(r.schedule)
    ensures multiset(r.schedule) == multiset(c.schedule) + multiset{e}
    ensures IsTimeout(e) ==> r.lookup == c.lookup + multiset{e}
    ensures !IsTimeout(e) ==> r.lookup == c.lookup
  {
    var k := UpperBound(c.schedule, e.due);
    var pre, post := c.schedule[..k], c.schedule[k..];
    assert c.schedule == pre + post;
    InsertKeepsSorted(c.schedule, k, e);
    Clock(pre + ([e] + post), if IsTimeout(e) then c.lookup + multiset{e} else c.lookup)
  }

  lemma InsertKeepsSorted(s: seq<Event>, k: nat, e: Event)
    requires Sorted(s) && IsScheduled(e) && k <= |s|
    requires forall i :: 0 <= i < k ==> s[i].due <= e.due
    requires forall i :: k <= i < |s| ==> s[i].due > e.due
    ensures Sorted(s[..k] + ([e] + s[k..]))
  {
    var r := s[..k] + ([e] + s[k..]);
    forall i | 0 <= i < |r| ensures IsScheduled(r[i]) {
      if i < k { assert r[i] == s[i]; } else if i > k { assert r[i] == s[i - 1]; }
    }
    forall i, j | 0 <= i < j < |r| ensures r[i].due <= r[j].due {
      if j < k {
        assert r[i] == s[i] && r[j] == s[j];
      } else if j == k {
        assert r[i] == s[i];
      } else if i > k {
        assert r[i] == s[i - 1] && r[j] == s[j - 1];
      } else if i == k {
        assert r[j] == s[j - 1];
      } else {
        assert r[i] == s[i] && r[j] == s[j - 1];
      }
    }
  }

  /** Whether cancellation `x` removes schedule entry `e`: an ordinary
      cancellation matches the owner's ordinary timeouts of that type, a
      request cancellation the owner's request timeout with that id, and a
      timeouts cancellation every timeout of the owner. */
  predicate Cancels(x: Event, e: Event) {
    match x
    case OrdinaryTimeoutCancellation(o, k) => e.OrdinaryTimeout? && e.owner == o && e.kind == k
    case RequestTimeoutCancellation(o, m) => e.RequestTimeout? && e.owner == o && e.mid == m
    case TimeoutsCancellation(o) => IsTimeout(e) && e.owner == o
    case _ => false
  }

  /** The entries cancellation `x` leaves in place. */
  function Survives(x: Event): Event -> bool {
    e => !Cancels(x, e)
  }

  /** The entries cancellation `x` removes. */
  function Hits(x: Event): Event -> bool {
    e => Cancels(x, e)
  }

  /** The `handle` overload for a cancellation: matching entries leave both
      the schedule and the lookup. */
  function Cancel(c: Clock, x: Event): (r: Clock)
    requires IsCancellation(x)
    ensures forall i :: 0 <= i < |r.schedule| ==> !Cancels(x, r.schedule[i])
    ensures forall e :: e in r.schedule <==> e in c.schedule && !Cancels(x, e)
    ensures multiset(r.schedule) == multiset(c.schedule) - multiset(Seqs.Filter(c.schedule, Hits(x)))
    ensures Seqs.IsSubsequence(r.schedule, c.schedule)
    ensures Valid(c) ==> forall e :: e in r.lookup <==> e in c.lookup && !Cancels(x, e)
  {
    CancelSchedule(c.schedule, x);
    CancelIndex(c, x);
    Clock(Seqs.Filter(c.schedule, Survives(x)),
          c.lookup - multiset(Seqs.Filter(c.schedule, Hits(x))))
  }

  /** The survivors of a cancellation: in order, and exactly the entries it
      does not match, with all their copies. */
  lemma CancelSchedule(s: seq<Event>, x: Event)
    requires IsCancellation(x)
    ensures var kept := Seqs.Filter(s, Survives(x));
      && (forall e :: e in kept <==> e in s && !Cancels(x, e))
      && multiset(kept) == multiset(s) - multiset(Seqs.Filter(s, Hits(x)))
      && Seqs.IsSubsequence(kept, s)
  {
    Seqs.FilterMembers(s, Survives(x));
    Seqs.FilterIsSubsequence(s, Survives(x));
    CancelPartition(s, x);
  }

  /** Every entry either survives a cancellation or is hit by it. */
  lemma {:induction false} CancelPartition(s: seq<Event>, x: Event)
    ensures multiset(Seqs.Filter(s, Survives(x))) + multiset(Seqs.Filter(s, Hits(x))) == multiset(s)
  {
    if |s| > 0 {
      var t := s[1..];
      CancelPartition(t, x);
      var a := multiset(Seqs.Filter(t, Survives(x)));
      var b := multiset(Seqs.Filter(t, Hits(x)));
      assert multiset(s) == multiset{s[0]} + multiset(t) by {
        assert s == [s[0]] + t;
      }
      FilterHead(s, Survives(x));
      FilterHead(s, Hits(x));
      if Cancels(x, s[0]) {
        assert multiset(Seqs.Filter(s, Hits(x))) == multiset{s[0]} + b;
      } else {
        assert multiset(Seqs.Filter(s, Survives(x))) == multiset{s[0]} + a;
      }
    }
  }

  /** On a valid clock the lookup keeps exactly the timeouts the
      cancellation does not match. */
  lemma CancelIndex(c: Clock, x: Event)
    requires IsCancellation(x)
    ensures Valid(c) ==> forall e :: e in c.lookup - multiset(Seqs.Filter(c.schedule, Hits(x)))
                                <==> e in c.lookup && !Cancels(x, e)
  {
    if Valid(c) {
      var s := c.schedule;
      var kept := Seqs.Filter(s, Survives(x));
      var left := c.lookup - multiset(Seqs.Filter(s, Hits(x)));
      CancelLookup(s, x);
      assert left == multiset(Seqs.Filter(kept, IsTimeout));
      Seqs.FilterMembers(kept, IsTimeout);
      Seqs.FilterMembers(s, IsTimeout);
      Seqs.FilterMembers(s, Survives(x));
      forall e ensures e in left <==> e in c.lookup && !Cancels(x, e) {
        assert e in left <==> e in kept && IsTimeout(e);
        assert e in c.lookup <==> e in s && IsTimeout(e);
      }
    }
  }

  lemma {:induction false} FilterKeepsSorted(s: seq<Event>, p: Event -> bool)
    requires Sorted(s)
    ensures Sorted(Seqs.Filter(s, p))
  {
    if |s| > 0 {
      var t := s[1..];
      assert Sorted(t);
      FilterKeepsSorted(t, p);
      var q := (e: Event) => IsScheduled(e) && s[0].due <= e.due;
      assert forall i :: 0 <= i < |t| ==> q(t[i]) by {
        assert forall i :: 0 <= i < |t| ==> t[i] == s[i + 1];
      }
      FilterKeepsAll(t, p, q);
      if p(s[0]) {
        var f := Seqs.Filter(t, p);
        assert Seqs.Filter(s, p) == [s[0]] + f;
        assert forall i :: 0 < i < |f| + 1 ==> ([s[0]] + f)[i] == f[i - 1];
      }
    }
  }

  /** Filtering keeps any property every element has. */
  lemma {:induction false} FilterKeepsAll(s: seq<Event>, p: Event -> bool, q: Event -> bool)
    requires forall i :: 0 <= i < |s| ==> q(s[i])
    ensures forall i :: 0 <= i < |Seqs.Filter(s, p)| ==> q(Seqs.Filter(s, p)[i])
  {
    if |s| > 0 {
      FilterKeepsAll(s[1..], p, q);
      if p(s[0]) {
        var f := Seqs.Filter(s[1..], p);
        assert Seqs.Filter(s, p) == [s[0]] + f;
        assert forall i :: 0 < i < |f| + 1 ==> ([s[0]] + f)[i] == f[i - 1];
      }
    }
  }

  /** Removing the entries a cancellation matches removes exactly their
      copies from the timeout index, since a cancellation only matches
      timeouts. */
  lemma {:induction false} CancelLookup(s: seq<Event>, x: Event)
    requires IsCancellation(x)
    ensures multiset(Seqs.Filter(Seqs.Filter(s, Survives(x)), IsTimeout))
         == multiset(Seqs.Filter(s, IsTimeout)) - multiset(Seqs.Filter(s, Hits(x)))
  {
    if |s| > 0 {
      var y, t := s[0], s[1..];
      CancelLookup(t, x);
      CancelledAreTimeouts(t, x);
      var a := multiset(Seqs.Filter(t, IsTimeout));
      var b := multiset(Seqs.Filter(t, Hits(x)));
      FilterHead(s, IsTimeout);
      FilterHead(s, Survives(x));
      FilterHead(s, Hits(x));
      if Cancels(x, y) {
        assert IsTimeout(y);
        RemoveBoth(a, b, y);
      } else {
        var kept := Seqs.Filter(s, Survives(x));
        FilterHead(kept, IsTimeout);
        if IsTimeout(y) {
          RemoveFromLarger(a, b, y);
        }
      }
    }
  }

  /** One unfolding of `Filter`, as multisets. */
  lemma FilterHead(s: seq<Event>, p: Event -> bool)
    requires |s| > 0
    ensures multiset(Seqs.Filter(s, p)) == (if p(s[0]) then multiset{s[0]} else multiset{}) + multiset(Seqs.Filter(s[1..], p))
    ensures p(s[0]) ==> Seqs.Filter(s, p) == [s[0]] + Seqs.Filter(s[1..], p)
    ensures !p(s[0]) ==> Seqs.Filter(s, p) == Seqs.Filter(s[1..], p)
  {
  }

  lemma RemoveBoth(a: multiset<Event>, b: multiset<Event>, y: Event)
    ensures (a + multiset{y}) - (b + multiset{y}) == a - b
  {
  }

  lemma RemoveFromLarger(a: multiset<Event>, b: multiset<Event>, y: Event)
    requires b <= a
    ensures (a + multiset{y}) - b == (a - b) + multiset{y}
  {
  }

  lemma {:induction false} CancelledAreTimeouts(s: seq<Event>, x: Event)
    requires IsCancellation(x)
    ensures multiset(Seqs.Filter(s, Hits(x))) <= multiset(Seqs.Filter(s, IsTimeout))
  {
    if |s| > 0 {
      CancelledAreTimeouts(s[1..], x);
    }
  }

  lemma CancelKeepsValid(c: Clock, x: Event)
    requires Valid(c) && IsCancellation(x)
    ensures Valid(Cancel(c, x))
  {
    FilterKeepsSorted(c.schedule, Survives(x));
    CancelLookup(c.schedule, x);
  }

  /** Cancelling something no longer scheduled — one that already fired,
      say — changes nothing. */
  lemma CancelAfterFiringIsNoOp(c: Clock, x: Event)
    requires Valid(c) && IsCancellation(x)
    requires forall i :: 0 <= i < |c.schedule| ==> !Cancels(x, c.schedule[i])
    ensures Cancel(c, x) == c
  {
    Seqs.FilterAllOrNone(c.schedule, Survives(x));
    Seqs.FilterAllOrNone(c.schedule, Hits(x));
  }

  lemma AddEntryKeepsValid(c: Clock, e: Event)
    requires Valid(c) && IsScheduled(e)
    ensures Valid(AddEntry(c, e))
  {
    var k := UpperBound(c.schedule, e.due);
    var pre, post := c.schedule[..k], c.schedule[k..];
    assert c.schedule == pre + post;
    assert AddEntry(c, e).schedule == pre + ([e] + post);
    Seqs.FilterAppend(pre, post, IsTimeout);
    Seqs.FilterAround(pre, e, post, IsTimeout);
  }

  /** Where `AddEntry` puts the new entry: after every entry due no later
      than it and before every entry due later. */
  lemma AddEntryPosition(c: Clock, e: Event)
    requires Sorted(c.schedule) && IsScheduled(e)
    ensures exists k ::
      && 0 <= k <= |c.schedule|
      && AddEntry(c, e).schedule == c.schedule[..k] + [e] + c.schedule[k..]
      && (forall i :: 0 <= i < k ==> c.schedule[i].due <= e.due)
      && (forall i :: k <= i < |c.schedule| ==> e.due < c.schedule[i].due)
  {
    var k := UpperBound(c.schedule, e.due);
    assert AddEntry(c, e).schedule == c.schedule[..k] + [e] + c.schedule[k..];
  }

  /** Entries due at the same time fire in arrival order: the one added
      first sits before the one added second. */
  lemma EqualDueInArrivalOrder(c: Clock, e1: Event, e2: Event)
    requires Sorted(c.schedule) && IsScheduled(e1) && IsScheduled(e2) && e1.due == e2.due
    ensures var r := AddEntry(AddEntry(c, e1), e2).schedule;
      exists i, j :: 0 <= i < j < |r| && r[i] == e1 && r[j] == e2
  {
    var c1 := AddEntry(c, e1);
    var k1 := UpperBound(c.schedule, e1.due);
    var k2 := UpperBound(c1.schedule, e2.due);
    assert c1.schedule[k1] == e1;
    assert k1 < k2;
    var r := AddEntry(c1, e2).schedule;
    assert r == c1.schedule[..k2] + ([e2] + c1.schedule[k2..]);
    assert r[k1] == e1 && r[k2] == e2;
  }

  // -- draining one batch -----------------------------------------------------

  datatype Stepped = Stepped(clock: Clock, loggedError: bool)

  /** One drained event other than shutdown. */
  function Step(c: Clock, e: Event): (r: Stepped)
    requires Sorted(c.schedule) && !e.Shutdown?
    ensures r.loggedError <==> e.Unknown?
    ensures e.Unknown? ==> r.clock == c
    ensures e.DropAll? ==> r.clock == EmptyClock
    ensures IsScheduled(e) ==> r.clock == AddEntry(c, e)
    ensures IsCancellation(e) ==> r.clock == Cancel(c, e)
  {
    if e.DropAll? then Stepped(EmptyClock, false)
    else if IsCancellation(e) then Stepped(Cancel(c, e), false)
    else if IsScheduled(e) then Stepped(AddEntry(c, e), false)
    else Stepped(c, true)
  }

  lemma StepKeepsValid(c: Clock, e: Event)
    requires Valid(c) && !e.Shutdown?
    ensures Valid(Step(c, e).clock)
  {
    if IsCancellation(e) {
      CancelKeepsValid(c, e);
    } else if IsScheduled(e) {
      AddEntryKeepsValid(c, e);
    }
  }

  /** What draining a batch leaves: the clock, whether the loop keeps
      running, how many events it processed and how many it logged as of
      unknown type. */
  datatype Drained = Drained(clock: Clock, running: bool, processed: nat, errors: nat)

  /** The body of the drain loop: events are handled in queue order; a
      shutdown clears both structures and ends the loop on the spot. */
  function ProcessBatch(c: Clock, batch: seq<Event>): (r: Drained)
    requires Valid(c)
    ensures Valid(r.clock)
    ensures r.running <==> Shutdown !in batch
    ensures r.running ==> r.processed == |batch|
    ensures !r.running ==> r.clock == EmptyClock && r.processed == Seqs.Find(batch, Shutdown) + 1
    ensures r.errors <= r.processed
    decreases |batch|
  {
    if |batch| == 0 then Drained(c, true, 0, 0)
    else if batch[0].Shutdown? then Drained(EmptyClock, false, 1, 0)
    else
      var st := Step(c, batch[0]);
      StepKeepsValid(c, batch[0]);
      var rest := ProcessBatch(st.clock, batch[1..]);
      assert batch == [batch[0]] + batch[1..];
      Drained(rest.clock, rest.running, rest.processed + 1, rest.errors + (if st.loggedError then 1 else 0))
  }

  /** Queue order: draining `a + b` is draining `a` and then `b`, as long
      as `a` holds no shutdown. */
  lemma {:induction false} BatchSplit(c: Clock, a: seq<Event>, b: seq<Event>)
    requires Valid(c) && Shutdown !in a
    ensures var ra := ProcessBatch(c, a);
      var rb := ProcessBatch(ra.clock, b);
      ProcessBatch(c, a + b) == Drained(rb.clock, rb.running, |a| + rb.processed, ra.errors + rb.errors)
    decreases |a|
  {
    if |a| == 0 {
      assert a + b == b;
    } else {
      assert (a + b)[0] == a[0];
      assert (a + b)[1..] == a[1..] + b;
      assert a == [a[0]] + a[1..];
      StepKeepsValid(c, a[0]);
      BatchSplit(Step(c, a[0]).clock, a[1..], b);
    }
  }

  /** Events behind a shutdown in the same batch are never looked at. */
  lemma ShutdownDropsRest(c: Clock, a: seq<Event>, b: seq<Event>)
    requires Valid(c) && Shutdown !in a
    ensures ProcessBatch(c, a + [Shutdown] + b).clock == EmptyClock
    ensures !ProcessBatch(c, a + [Shutdown] + b).running
    ensures ProcessBatch(c, a + [Shutdown] + b).processed == |a| + 1
  {
    assert a + [Shutdown] + b == a + ([Shutdown] + b);
    BatchSplit(c, a, [Shutdown] + b);
  }

  /** `drop_all` empties both structures and the loop keeps running. */
  lemma DropAllKeepsRunning(c: Clock)
    requires Valid(c)
    ensures ProcessBatch(c, [DropAll]) == Drained(EmptyClock, true, 1, 0)
  {
    assert [DropAll][1..] == [];
  }

  /** An event of unknown type is logged and changes nothing. */
  lemma UnknownIsLogged(c: Clock, n: nat)
    requires Valid(c)
    ensures ProcessBatch(c, [Unknown(n)]) == Drained(c, true, 1, 1)
  {
    assert [Unknown(n)][1..] == [];
  }

  /** Nothing fires while a batch is drained: a batch of schedule events
      only adds entries. */
  lemma {:induction false} DrainingOnlyAdds(c: Clock, batch: seq<Event>)
    requires Valid(c)
    requires forall i :: 0 <= i < |batch| ==> IsScheduled(batch[i])
    ensures ProcessBatch(c, batch).running
    ensures multiset(ProcessBatch(c, batch).clock.schedule) == multiset(c.schedule) + multiset(batch)
    decreases |batch|
  {
    if |batch| > 0 {
      assert batch == [batch[0]] + batch[1..];
      StepKeepsValid(c, batch[0]);
      DrainingOnlyAdds(Step(c, batch[0]).clock, batch[1..]);
    }
  }

  /** The cancellation race: a timeout set and then cancelled in the same
      batch never fires, because nothing of it is left in the schedule. */
  lemma SetThenCancel(c: Clock, t: Time, self: ActorId, kind: string, id: nat)
    requires Valid(c)
    ensures var r := ProcessBatch(c, [OrdinaryTimeout(t, self, kind, id), OrdinaryTimeoutCancellation(self, kind)]);
      r.running && OrdinaryTimeout(t, self, kind, id) !in r.clock.schedule
  {
    var b := [OrdinaryTimeout(t, self, kind, id), OrdinaryTimeoutCancellation(self, kind)];
    var c1 := Step(c, b[0]).clock;
    StepKeepsValid(c, b[0]);
    assert b[1..] == [b[1]];
    assert [b[1]][1..] == [];
    StepKeepsValid(c1, b[1]);
    var c2 := Step(c1, b[1]).clock;
    assert ProcessBatch(c1, [b[1]]).clock == c2;
    assert ProcessBatch(c, b).clock == ProcessBatch(c1, b[1..]).clock;
    assert c2 == Cancel(c1, b[1]);
    assert Cancels(b[1], b[0]);
  }

  /** The same race across two batches: as long as no wait times out
      between them, draining the set and the cancellation separately leaves
      what draining them together leaves. */
  lemma SetThenCancelInTwoBatches(c: Clock, t: Time, self: ActorId, kind: string, id: nat)
    requires Valid(c)
    ensures var r1 := ProcessBatch(c, [OrdinaryTimeout(t, self, kind, id)]);
      var r2 := ProcessBatch(r1.clock, [OrdinaryTimeoutCancellation(self, kind)]);
      r1.running && r2.running && OrdinaryTimeout(t, self, kind, id) !in r2.clock.schedule
  {
    var a, b := [OrdinaryTimeout(t, self, kind, id)], [OrdinaryTimeoutCancellation(self, kind)];
    BatchSplit(c, a, b);
    assert a + b == [OrdinaryTimeout(t, self, kind, id), OrdinaryTimeoutCancellation(self, kind)];
    SetThenCancel(c, t, self, kind, id);
  }

  /** Which cancel call undoes which set call, stated on the calls: the
      same actor, and the same timeout type for an ordinary cancellation,
      the same message id for a request cancellation, anything for
      `cancel_timeouts`. */
  predicate CancelMatches(cancel: ClockCall, timer: ClockCall) {
    && IsCancelCall(cancel) && IsSetCall(timer) && cancel.self == timer.self
    && (|| cancel.CancelTimeouts?
        || (cancel.CancelOrdinaryTimeout? && timer.SetOrdinaryTimeout? && cancel.kind == timer.kind)
        || (cancel.CancelRequestTimeout? && timer.SetRequestTimeout? && cancel.mid == timer.mid))
  }

  /** The events two calls push cancel each other exactly when the calls
      match. */
  lemma CancelCallCancels(cancel: ClockCall, timer: ClockCall)
    requires IsCancelCall(cancel) && IsSetCall(timer)
    ensures Cancels(EventFor(cancel), EventFor(timer)) <==> CancelMatches(cancel, timer)
  {
  }

  /** The cancellation race on the public calls: a set call followed by a
      matching cancel call leaves nothing of the timeout in the schedule. */
  lemma SetThenCancelCalls(c: Clock, timer: ClockCall, cancel: ClockCall)
    requires Valid(c) && CancelMatches(cancel, timer)
    ensures var r := ProcessBatch(c, Push(Push([], timer), cancel));
      r.running && EventFor(timer) !in r.clock.schedule
  {
    var b := Push(Push([], timer), cancel);
    assert b == [EventFor(timer), EventFor(cancel)];
    CancelCallCancels(cancel, timer);
    var c1 := Step(c, b[0]).clock;
    StepKeepsValid(c, b[0]);
    assert b[1..] == [b[1]];
    assert [b[1]][1..] == [];
    StepKeepsValid(c1, b[1]);
    assert ProcessBatch(c1, [b[1]]).clock == Step(c1, b[1]).clock;
    assert ProcessBatch(c, b).clock == ProcessBatch(c1, b[1..]).clock;
  }

  // -- firing and waiting -----------------------------------------------------

  /** The deadline of the wait: none for an empty schedule, otherwise the
      due time of its first entry, which is the earliest. */
  function WaitDeadline(c: Clock): (r: Option<Time>)
    requires Sorted(c.schedule)
    ensures r.None? <==> |c.schedule| == 0
    ensures r.Some? ==> forall i :: 0 <= i < |c.schedule| ==> r.value <= c.schedule[i].due
    ensures r.Some? ==> exists i :: 0 <= i < |c.schedule| && r.value == c.schedule[i].due
  {
    if |c.schedule| == 0 then None else Some(c.schedule[0].due)
  }

  datatype Fired = Fired(clock: Clock, fired: seq<Event>)

  /** `trigger_expired_timeouts`: every entry due at or before `now` fires,
      in schedule order, and leaves both structures. */
  function TriggerExpired(c: Clock, now: Time): (r: Fired)
    requires Valid(c)
    ensures Valid(r.clock)
    ensures r.fired + r.clock.schedule == c.schedule
    ensures forall i :: 0 <= i < |r.fired| ==> IsScheduled(r.fired[i]) && r.fired[i].due <= now
    ensures forall i :: 0 <= i < |r.clock.schedule| ==> r.clock.schedule[i].due > now
  {
    var k := UpperBound(c.schedule, now);
    DropPrefixKeepsValid(c, k);
    Fired(Clock(c.schedule[k..], c.lookup - multiset(Seqs.Filter(c.schedule[..k], IsTimeout))), c.schedule[..k])
  }

  /** Removing a prefix of the schedule, and its timeouts from the lookup,
      keeps the clock invariant. */
  lemma DropPrefixKeepsValid(c: Clock, k: nat)
    requires Valid(c) && k <= |c.schedule|
    ensures Valid(Clock(c.schedule[k..], c.lookup - multiset(Seqs.Filter(c.schedule[..k], IsTimeout))))
    ensures c.schedule[..k] + c.schedule[k..] == c.schedule
  {
    var pre, post := c.schedule[..k], c.schedule[k..];
    assert c.schedule == pre + post;
    Seqs.FilterAppend(pre, post, IsTimeout);
    var a, b := multiset(Seqs.Filter(pre, IsTimeout)), multiset(Seqs.Filter(post, IsTimeout));
    assert c.lookup == a + b;
    assert (a + b) - a == b;
    SuffixSorted(c.schedule, k);
  }

  lemma SuffixSorted(s: seq<Event>, k: nat)
    requires Sorted(s) && k <= |s|
    ensures Sorted(s[k..])
  {
    assert forall i :: 0 <= i < |s[k..]| ==> s[k..][i] == s[k + i];
  }

  datatype Wake = Arrived(batch: seq<Event>) | TimedOut(now: Time)

  /** One turn of the dispatch loop. An unbounded wait (empty schedule)
      cannot time out; a bounded one times out only once its deadline is
      reached, and then fires instead of draining. */
  function LoopTurn(c: Clock, w: Wake): (r: (Drained, seq<Event>))
    requires Valid(c)
    requires w.TimedOut? ==> WaitDeadline(c).Some? && WaitDeadline(c).value <= w.now
    ensures Valid(r.0.clock)
    ensures w.TimedOut? ==> r.0.running && r.0.processed == 0 && |r.1| > 0 && |r.0.clock.schedule| < |c.schedule|
    ensures w.Arrived? ==> r.0 == ProcessBatch(c, w.batch) && r.1 == []
  {
    match w
    case Arrived(batch) => (ProcessBatch(c, batch), [])
    case TimedOut(now) =>
      var f := TriggerExpired(c, now);
      assert |f.fired| > 0 by {
        assert c.schedule[0].due <= now;
      }
      (Drained(f.clock, true, 0, 0), f.fired)
  }
}
