/** The durable event queue: leases on rows of the `events` table, shared by any
    number of workers. */
module EventQueue {
  import opened Collections
  import opened Options
  import opened OrderedLimit

  type EventId = string

  datatype Event = Event(ts: int, processed: bool, claimedBy: Option<string>, claimedAt: Option<int>)

  type Table = map<EventId, Event>

  /** Unprocessed, and unclaimed or claimed before the cutoff. A NULL `claimed_at`
      compares as false, as in SQL. */
  predicate Claimable(e: Event, cutoff: int) {
    !e.processed && (e.claimedBy.None? || (e.claimedAt.Some? && e.claimedAt.value < cutoff))
  }

  predicate Stale(e: Event, cutoff: int) {
    !e.processed && e.claimedBy.Some? && e.claimedAt.Some? && e.claimedAt.value < cutoff
  }

  function ClaimableIds(t: Table, cutoff: int): set<EventId> {
    set i | i in t && Claimable(t[i], cutoff)
  }

  function Pending(t: Table): set<EventId> {
    set i | i in t && !t[i].processed
  }

  function Leased(t: Table, ids: set<EventId>, worker: string, at: int): Table {
    map i | i in t :: if i in ids then t[i].(claimedBy := Some(worker), claimedAt := Some(at)) else t[i]
  }

  function Completed(t: Table, ids: set<EventId>): Table {
    map i | i in t :: if i in ids then t[i].(processed := true, claimedBy := None) else t[i]
  }

  function Requeued(t: Table, cutoff: int): Table {
    map i | i in t :: if Stale(t[i], cutoff) then t[i].(claimedBy := None) else t[i]
  }

  /** Not done, and either nobody's or stamped more than a lease before this reading. */
  ghost predicate IsFree(e: Event, lease: int, clock: int) {
    !e.processed && (e.claimedBy == None || exists at :: e.claimedAt == Some(at) && at + lease < clock)
  }

  /** Not done, somebody's, and stamped more than a lease before this reading. */
  ghost predicate IsAbandoned(e: Event, lease: int, clock: int) {
    !e.processed && e.claimedBy != None && exists at :: e.claimedAt == Some(at) && at + lease < clock
  }

  /** Up to `batch` events, none twice, newest first; all are free, and one that is free and
      left out is no newer than those taken, which then are as many as allowed. */
  ghost predicate NewestFree(t: Table, rows: seq<EventId>, batch: nat, lease: int, clock: int) {
    && |rows| <= batch && (forall a, b :: 0 <= a < b < |rows| ==> rows[a] != rows[b])
    && (forall r :: r in rows ==> r in t && IsFree(t[r], lease, clock))
    && (forall a, b :: 0 <= a < b < |rows| ==> t[rows[a]].ts >= t[rows[b]].ts)
    && (forall i, r :: i in t && IsFree(t[i], lease, clock) && i !in rows && r in rows ==> t[r].ts >= t[i].ts)
    && (forall i :: i in t && IsFree(t[i], lease, clock) && i !in rows ==> |rows| == batch)
  }

  lemma FirstIsNewest(t: Table, rows: seq<EventId>, batch: nat, lease: int, clock: int)
    requires FirstBy(rows, map i | i in ClaimableIds(t, clock - lease) :: -t[i].ts, batch)
    ensures NewestFree(t, rows, batch, lease, clock)
  {
    hide IsFree, Claimable;
    var keys := map i | i in ClaimableIds(t, clock - lease) :: -t[i].ts;
    forall i | i in t ensures i in keys <==> IsFree(t[i], lease, clock) {
      FreeIff(t[i], lease, clock);
    }
    forall i | i in keys && i !in rows ensures |rows| == batch && forall r :: r in rows ==> t[r].ts >= t[i].ts {
      LeftOut(rows, keys, batch, i);
    }
  }

  lemma FreeIff(e: Event, lease: int, clock: int)
    ensures Claimable(e, clock - lease) <==> IsFree(e, lease, clock)
  {
  }

  lemma StaleIff(e: Event, lease: int, clock: int)
    ensures Stale(e, clock - lease) <==> IsAbandoned(e, lease, clock)
  {
  }

  class Queue {
    var events: Table

    constructor (events: Table)
      ensures this.events == events
    {
      this.events := events;
    }

    /** Lease up to `batch` claimable events, newest first. The clock is read once
        for the cutoff and once more for the stamp. */
    method Claim(worker: string, batch: nat, lease: int, cutoffClock: int, stampClock: int) returns (rows: seq<EventId>)
      modifies this
      ensures events == Leased(old(events), ToSet(rows), worker, stampClock)
      ensures FirstBy(rows, map i | i in ClaimableIds(old(events), cutoffClock - lease) :: -old(events)[i].ts, batch)
      ensures NewestFree(old(events), rows, batch, lease, cutoffClock)
      ensures events.Keys == old(events).Keys
      ensures forall i :: i in events ==>
                events[i] == if i in rows then old(events)[i].(claimedBy := Some(worker), claimedAt := Some(stampClock)) else old(events)[i]
    {
      hide FirstBy, NewestFree;
      var cutoff := cutoffClock - lease;
      rows := SelectFirst(map i | i in ClaimableIds(events, cutoff) :: -events[i].ts, batch);
      FirstIsNewest(events, rows, batch, lease, cutoffClock);
      if rows != [] {
        events := Leased(events, ToSet(rows), worker, stampClock);
      } else {
        assert events == Leased(events, {}, worker, stampClock);
      }
    }

    /** Whoever calls it: the lease is not checked. */
    method Complete(ids: seq<EventId>)
      modifies this
      ensures events == Completed(old(events), ToSet(ids))
      ensures events.Keys == old(events).Keys
      ensures forall i :: i in events ==>
                events[i] == if i in ids then old(events)[i].(processed := true, claimedBy := None) else old(events)[i]
    {
      ghost var before := events;
      for k := 0 to |ids|
        invariant events == Completed(before, ToSet(ids[..k]))
      {
        if ids[k] in events {
          events := events[ids[k] := events[ids[k]].(processed := true, claimedBy := None)];
        }
        assert ids[..k + 1] == ids[..k] + [ids[k]];
      }
      assert ids[..|ids|] == ids;
    }

    method RequeueStale(lease: int, clock: int) returns (n: nat)
      modifies this
      ensures events == Requeued(old(events), clock - lease)
      ensures n == |set i | i in old(events) && Stale(old(events)[i], clock - lease)|
      ensures events.Keys == old(events).Keys
      ensures forall i :: i in events ==>
                events[i] == if IsAbandoned(old(events)[i], lease, clock) then old(events)[i].(claimedBy := None) else old(events)[i]
      ensures n == |set i | i in old(events) && IsAbandoned(old(events)[i], lease, clock)|
    {
      n := |set i | i in events && Stale(events[i], clock - lease)|;
      forall i | i in events ensures Stale(events[i], clock - lease) <==> IsAbandoned(events[i], lease, clock) {
        StaleIff(events[i], lease, clock);
      }
      assert (set i | i in events && Stale(events[i], clock - lease)) == set i | i in events && IsAbandoned(events[i], lease, clock);
      events := Requeued(events, clock - lease);
    }

    /** The backlog. */
    method Depth() returns (n: nat)
      ensures n == |Pending(events)|
    {
      n := |Pending(events)|;
    }

    /** Never more than the backlog. */
    method InFlight() returns (n: nat)
      ensures n == |InWork(events)| <= |Pending(events)|
    {
      InWorkIsPending(events);
      n := |InWork(events)|;
    }
  }

  /** Claimed and not done. */
  function InWork(t: Table): set<EventId> {
    set i | i in t && !t[i].processed && t[i].claimedBy.Some?
  }

  lemma SubsetCount(a: set<EventId>, b: set<EventId>)
    requires a <= b
    ensures |b - a| == |b| - |a|
  {
    assert b == a + (b - a);
  }

  lemma InWorkIsPending(t: Table)
    ensures InWork(t) <= Pending(t) && |InWork(t)| <= |Pending(t)|
  {
    SubsetCount(InWork(t), Pending(t));
  }

  // How the two numbers of the queue move.

  /** A claim leaves the backlog alone and puts in flight those of its events that
      were not: an expired lease that changes hands counts once. */
  lemma ClaimMoves(t: Table, ids: set<EventId>, worker: string, at: int)
    requires ids <= Pending(t)
    ensures |Pending(Leased(t, ids, worker, at))| == |Pending(t)|
    ensures |InWork(Leased(t, ids, worker, at))| == |InWork(t)| + |ids - InWork(t)|
  {
    var after := Leased(t, ids, worker, at);
    assert Pending(after) == Pending(t);
    assert InWork(after) == InWork(t) + (ids - InWork(t));
  }

  /** A completion takes its events out of both, those it finds there. */
  lemma CompleteMoves(t: Table, ids: set<EventId>)
    ensures |Pending(Completed(t, ids))| == |Pending(t)| - |ids * Pending(t)|
    ensures |InWork(Completed(t, ids))| == |InWork(t)| - |ids * InWork(t)|
  {
    var after := Completed(t, ids);
    assert Pending(after) == Pending(t) - ids * Pending(t);
    assert InWork(after) == InWork(t) - ids * InWork(t);
    SubsetCount(ids * Pending(t), Pending(t));
    SubsetCount(ids * InWork(t), InWork(t));
  }

  /** Requeueing takes out of flight exactly as many as it reports, and none out of
      the backlog. */
  lemma RequeueMoves(t: Table, cutoff: int)
    ensures |Pending(Requeued(t, cutoff))| == |Pending(t)|
    ensures |InWork(Requeued(t, cutoff))| == |InWork(t)| - |set i | i in t && Stale(t[i], cutoff)|
  {
    var after, stale := Requeued(t, cutoff), set i | i in t && Stale(t[i], cutoff);
    assert Pending(after) == Pending(t);
    assert InWork(after) == InWork(t) - stale && stale <= InWork(t);
    SubsetCount(stale, InWork(t));
  }

  // ---------------------------------------------------------------------
  // Runs of many workers
  // ---------------------------------------------------------------------

  /** One entry of the history: who got which events, the stamp written on them,
      and the shared clock when the claim took effect. */
  datatype Grant = Grant(worker: string, ids: set<EventId>, stamp: int, clock: int)

  datatype State = State(clock: int, events: Table, grants: seq<Grant>, completed: set<EventId>)

  datatype Action =
    | Tick(secs: nat)
    | Arrive(id: EventId, ts: int)
    | Claim(worker: string, ids: set<EventId>, cutoffClock: int, stamp: int)
    | Complete(ids: set<EventId>)
    | Requeue(reading: int)
    | WorkerDies(worker: string)

  /** A claim is atomic; its clock may have been read earlier (the PostgreSQL path
      reads it before the statement), and it returns any set of claimable events. */
  predicate Enabled(lease: nat, s: State, a: Action) {
    match a
    case Tick(secs) => true
    case Arrive(id, ts) => id !in s.events
    case Claim(w, ids, cut, stamp) =>
      cut <= s.clock && stamp <= s.clock && ids <= ClaimableIds(s.events, cut - lease)
    case Complete(ids) => true
    case Requeue(r) => r <= s.clock
    case WorkerDies(w) => true
  }

  function Step(lease: nat, s: State, a: Action): State
    requires Enabled(lease, s, a)
  {
    match a
    case Tick(secs) => s.(clock := s.clock + secs)
    case Arrive(id, ts) => s.(events := s.events[id := Event(ts, false, None, None)])
    case Claim(w, ids, cut, stamp) =>
      s.(events := Leased(s.events, ids, w, stamp), grants := s.grants + [Grant(w, ids, stamp, s.clock)])
    case Complete(ids) => s.(events := Completed(s.events, ids), completed := s.completed + (ids * s.events.Keys))
    case Requeue(r) => s.(events := Requeued(s.events, r - lease))
    case WorkerDies(w) => s
  }

  predicate Runs(lease: nat, s: State, run: seq<Action>)
    decreases |run|
  {
    run == [] || (Enabled(lease, s, run[0]) && Runs(lease, Step(lease, s, run[0]), run[1..]))
  }

  function After(lease: nat, s: State, run: seq<Action>): State
    requires Runs(lease, s, run)
    decreases |run|
  {
    if run == [] then s else After(lease, Step(lease, s, run[0]), run[1..])
  }

  // Every call is a step.

  /** A claim that returns these rows is a step of the protocol in every state whose clock
      has reached its two readings, with the effect and the entry in the history it should
      have. */
  lemma ClaimIsStep(lease: nat, s: State, worker: string, rows: seq<EventId>, batch: nat, cutoffClock: int, stamp: int)
    requires NewestFree(s.events, rows, batch, lease, cutoffClock) && cutoffClock <= s.clock && stamp <= s.clock
    ensures Enabled(lease, s, Action.Claim(worker, ToSet(rows), cutoffClock, stamp))
    ensures
      var t := Step(lease, s, Action.Claim(worker, ToSet(rows), cutoffClock, stamp));
      && t.clock == s.clock && t.completed == s.completed && t.grants == s.grants + [Grant(worker, ToSet(rows), stamp, s.clock)]
      && t.events.Keys == s.events.Keys
      && forall i :: i in t.events ==>
           t.events[i] == if i in rows then s.events[i].(claimedBy := Some(worker), claimedAt := Some(stamp)) else s.events[i]
  {
    hide IsFree, Claimable;
    forall i | i in rows ensures i in ClaimableIds(s.events, cutoffClock - lease) {
      FreeIff(s.events[i], lease, cutoffClock);
    }
  }

  /** So is every other call, in every state, and so are the passing of time, the arrival
      of an event and the death of a worker. */
  lemma CallIsStep(lease: nat, s: State, ids: seq<EventId>, reading: int, secs: nat, id: EventId, ts: int, worker: string)
    requires reading <= s.clock && id !in s.events
    ensures Enabled(lease, s, Complete(ToSet(ids))) && Enabled(lease, s, Requeue(reading))
    ensures Enabled(lease, s, Tick(secs)) && Enabled(lease, s, Arrive(id, ts)) && Enabled(lease, s, WorkerDies(worker))
    ensures
      var t := Step(lease, s, Complete(ToSet(ids)));
      && t.clock == s.clock && t.grants == s.grants && t.completed == s.completed + (set i | i in ids && i in s.events)
      && t.events.Keys == s.events.Keys
      && forall i :: i in t.events ==>
           t.events[i] == if i in ids then s.events[i].(processed := true, claimedBy := None) else s.events[i]
    ensures
      var t := Step(lease, s, Requeue(reading));
      && t == s.(events := t.events) && t.events.Keys == s.events.Keys
      && forall i :: i in t.events ==>
           t.events[i] == if IsAbandoned(s.events[i], lease, reading) then s.events[i].(claimedBy := None) else s.events[i]
    ensures Step(lease, s, Tick(secs)) == s.(clock := s.clock + secs) && Step(lease, s, WorkerDies(worker)) == s
    ensures Step(lease, s, Arrive(id, ts)) == s.(events := s.events[id := Event(ts, false, None, None)])
  {
    hide IsAbandoned, Stale;
    forall i | i in s.events ensures Stale(s.events[i], reading - lease) <==> IsAbandoned(s.events[i], lease, reading) {
      StaleIff(s.events[i], lease, reading);
    }
  }

  /** A granted event is done, or its lease has run out on the shared clock, or it
      still carries a stamp at least as recent. */
  ghost predicate Protected(lease: nat, s: State, g: Grant, i: EventId) {
    && i in s.events
    && (s.events[i].processed || s.clock > g.stamp + lease
        || (s.events[i].claimedBy.Some? && s.events[i].claimedAt.Some? && s.events[i].claimedAt.value >= g.stamp))
  }

  /** No later grant shares an event with `g` until the lease of `g` is over. */
  ghost predicate Apart(lease: nat, g: Grant, later: Grant) {
    g.ids !! later.ids || later.clock > g.stamp + lease
  }

  ghost predicate Inv(lease: nat, s: State) {
    && (forall g :: g in s.grants ==> forall i :: i in g.ids ==> Protected(lease, s, g, i))
    && (forall i :: i in s.completed ==> i in s.events && s.events[i].processed)
    && (forall a, b :: 0 <= a < b < |s.grants| ==> Apart(lease, s.grants[a], s.grants[b]))
  }

  lemma ClaimApart(lease: nat, s: State, a: Action, g: Grant)
    requires Inv(lease, s) && Enabled(lease, s, a) && a.Claim?
    requires g in s.grants
    ensures Apart(lease, g, Grant(a.worker, a.ids, a.stamp, s.clock))
  {
    if g.ids * a.ids != {} {
      var i :| i in g.ids * a.ids;
      assert Protected(lease, s, g, i);
    }
  }

  lemma ProtectedStep(lease: nat, s: State, a: Action, g: Grant, i: EventId)
    requires Enabled(lease, s, a) && Protected(lease, s, g, i)
    ensures Protected(lease, Step(lease, s, a), g, i)
  {
  }

  lemma InvStep(lease: nat, s: State, a: Action)
    requires Inv(lease, s) && Enabled(lease, s, a)
    ensures Inv(lease, Step(lease, s, a))
  {
    var t := Step(lease, s, a);
    forall g, i | g in s.grants && i in g.ids ensures Protected(lease, t, g, i) {
      ProtectedStep(lease, s, a, g, i);
    }
    if a.Claim? {
      forall g | g in s.grants ensures Apart(lease, g, t.grants[|s.grants|]) {
        ClaimApart(lease, s, a, g);
      }
    }
  }

  lemma {:induction false} InvRun(lease: nat, s: State, run: seq<Action>)
    requires Inv(lease, s) && Runs(lease, s, run)
    ensures Inv(lease, After(lease, s, run))
    decreases |run|
  {
    if run != [] {
      InvStep(lease, s, run[0]);
      InvRun(lease, Step(lease, s, run[0]), run[1..]);
    }
  }

  /** Over every run with a common lease: two grants of the same event are more
      than a lease apart, and an event that has been completed is in no later
      grant. */
  lemma NoDoubleGrant(lease: nat, events: Table, clock: int, run: seq<Action>, a: nat, b: nat)
    requires Runs(lease, State(clock, events, [], {}), run)
    requires a < b < |After(lease, State(clock, events, [], {}), run).grants|
    ensures var s := After(lease, State(clock, events, [], {}), run);
      s.grants[a].ids * s.grants[b].ids != {} ==> s.grants[b].clock > s.grants[a].stamp + lease
  {
    InvRun(lease, State(clock, events, [], {}), run);
    assert Apart(lease, After(lease, State(clock, events, [], {}), run).grants[a],
                 After(lease, State(clock, events, [], {}), run).grants[b]);
  }

  lemma NeverAfterCompletion(lease: nat, events: Table, clock: int, run: seq<Action>, a: Action)
    requires Runs(lease, State(clock, events, [], {}), run)
    requires var s := After(lease, State(clock, events, [], {}), run); Enabled(lease, s, a) && a.Claim?
    ensures After(lease, State(clock, events, [], {}), run).completed !! a.ids
  {
    InvRun(lease, State(clock, events, [], {}), run);
    var s := After(lease, State(clock, events, [], {}), run);
    forall i | i in s.completed ensures i !in a.ids {
      assert i !in ClaimableIds(s.events, a.cutoffClock - lease);
    }
  }

  /** An event somebody was granted is done, or free, or carries a stamp the clock has
      reached. */
  ghost predicate Returnable(s: State, i: EventId) {
    i in s.events
    && (s.events[i].processed || s.events[i].claimedBy.None?
        || (s.events[i].claimedAt.Some? && s.events[i].claimedAt.value <= s.clock))
  }

  ghost predicate AllReturnable(s: State) {
    forall k, i :: 0 <= k < |s.grants| && i in s.grants[k].ids ==> Returnable(s, i)
  }

  lemma ReturnableStep(lease: nat, s: State, a: Action)
    requires AllReturnable(s) && Enabled(lease, s, a)
    ensures AllReturnable(Step(lease, s, a))
  {
    var t := Step(lease, s, a);
    forall k, i | 0 <= k < |t.grants| && i in t.grants[k].ids ensures Returnable(t, i) {
      if k < |s.grants| {
        assert Returnable(s, i);
      }
    }
  }

  lemma {:induction false} ReturnableRun(lease: nat, s: State, run: seq<Action>)
    requires AllReturnable(s) && Runs(lease, s, run)
    ensures AllReturnable(After(lease, s, run))
    decreases |run|
  {
    if run != [] {
      hide AllReturnable;
      ReturnableStep(lease, s, run[0]);
      ReturnableRun(lease, Step(lease, s, run[0]), run[1..]);
    }
  }

  /** A dead worker's batch comes back. Over every run, whoever was granted an event
      and whatever became of that worker: if the event is not done, it is claimable at
      every later moment more than a lease away, also when nobody requeues it. */
  lemma AbandonedComesBack(lease: nat, events: Table, clock: int, run: seq<Action>, k: nat, i: EventId, later: int)
    requires Runs(lease, State(clock, events, [], {}), run)
    requires var s := After(lease, State(clock, events, [], {}), run);
      k < |s.grants| && i in s.grants[k].ids && i in s.events && !s.events[i].processed && later > s.clock + lease
    ensures var s := After(lease, State(clock, events, [], {}), run);
      && i in ClaimableIds(s.events, later - lease)
      && i in ClaimableIds(Requeued(s.events, later - lease), later - lease)
  {
    hide Runs, After;
    ReturnableRun(lease, State(clock, events, [], {}), run);
    assert Returnable(After(lease, State(clock, events, [], {}), run), i);
  }
}
