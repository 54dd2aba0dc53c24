/** The multi-worker drain over the event queue. Every interleaving of the
    workers' atomic steps (claim a batch, process and complete it, fail) is
    allowed, and so is any passage of time between steps. */
module DetectionPool {
  import opened Collections
  import opened EventQueue
  import opened OrderedLimit

  /** One worker thread, with its local counters. A failed worker has ended too,
      its batch neither completed nor given back. */
  datatype Worker =
    | Ready(events: nat, batches: nat)
    | Holding(events: nat, batches: nat, rows: seq<EventId>)
    | Ended

  datatype Totals = Totals(events: nat, batches: nat, workers: nat)

  /** Where an event that was claimable at the start has got to. */
  datatype Place = Queued | With(worker: nat) | Done | Lost

  type Places = map<EventId, Place>

  /** Unprocessed and leased to nobody. */
  function Free(t: Table): set<EventId> {
    set i | i in t && !t[i].processed && t[i].claimedBy.None?
  }

  /** No lease in the table is over at `clock`. */
  ghost predicate Unexpired(t: Table, clock: int, lease: nat) {
    forall i :: i in t && !t[i].processed && t[i].claimedBy.Some? && t[i].claimedAt.Some? ==>
      t[i].claimedAt.value + lease >= clock
  }

  /** The whole run fits in one lease, for the pool's own claims (all stamped from
      `start` on) and for those it found in the table. */
  ghost predicate Quiet(t: Table, start: int, clock: int, lease: nat) {
    clock <= start + lease && Unexpired(t, clock, lease)
  }

  /** Each lease in the table is one of those found at the start or was stamped
      since. */
  ghost predicate LeasesFrom(found: Table, t: Table, start: int) {
    forall i :: i in t && !t[i].processed && t[i].claimedBy.Some? && t[i].claimedAt.Some? ==>
      || t[i].claimedAt.value >= start
      || (i in found && !found[i].processed && found[i].claimedBy.Some? && found[i].claimedAt == t[i].claimedAt)
  }

  lemma NothingExpires(found: Table, t: Table, start: int, clock: int, lease: nat)
    requires LeasesFrom(found, t, start) && Quiet(found, start, clock, lease)
    ensures ClaimableIds(t, clock - lease) == Free(t)
  {
    assert forall i :: i in t ==> (Claimable(t[i], clock - lease) <==> i in Free(t));
  }

  // ---------------------------------------------------------------------
  // Progress
  // ---------------------------------------------------------------------

  /** A batch with nothing left to do weighs more than an idle worker, an idle
      worker more than a batch with work in it. */
  function Weight(w: Worker, pending: set<EventId>): nat {
    match w
    case Ready(_, _) => 2
    case Holding(_, _, rows) => if ToSet(rows) !! pending then 3 else 1
    case Ended => 0
  }

  function TotalWeight(ws: seq<Worker>, pending: set<EventId>): nat {
    if ws == [] then 0 else TotalWeight(ws[..|ws| - 1], pending) + Weight(ws[|ws| - 1], pending)
  }

  function LocalEvents(w: Worker): nat { if w.Ended? then 0 else w.events }

  function AllLocal(ws: seq<Worker>): nat {
    if ws == [] then 0 else AllLocal(ws[..|ws| - 1]) + LocalEvents(ws[|ws| - 1])
  }

  function LocalBatches(w: Worker): nat { if w.Ended? then 0 else w.batches }

  function AllBatches(ws: seq<Worker>): nat {
    if ws == [] then 0 else AllBatches(ws[..|ws| - 1]) + LocalBatches(ws[|ws| - 1])
  }

  lemma {:induction false} UpdateSums(ws: seq<Worker>, k: nat, w: Worker, pending: set<EventId>)
    requires k < |ws|
    ensures TotalWeight(ws[k := w], pending) == TotalWeight(ws, pending) - Weight(ws[k], pending) + Weight(w, pending)
    ensures AllLocal(ws[k := w]) == AllLocal(ws) - LocalEvents(ws[k]) + LocalEvents(w)
    ensures AllBatches(ws[k := w]) == AllBatches(ws) - LocalBatches(ws[k]) + LocalBatches(w)
  {
    var init := ws[..|ws| - 1];
    if k == |init| {
      assert ws[k := w][..|init|] == init;
    } else {
      assert ws[k := w][..|init|] == init[k := w];
      UpdateSums(init, k, w, pending);
    }
  }

  lemma {:induction false} NoneLocal(ws: seq<Worker>)
    requires forall k :: 0 <= k < |ws| ==> ws[k].Ended?
    ensures AllLocal(ws) == AllBatches(ws) == 0
  {
    if ws != [] { NoneLocal(ws[..|ws| - 1]); }
  }

  lemma {:induction false} FreshLocal(n: nat)
    ensures AllLocal(seq(n, i => Ready(0, 0))) == AllBatches(seq(n, i => Ready(0, 0))) == 0
  {
    if n > 0 {
      assert seq(n, i => Ready(0, 0))[..n - 1] == seq(n - 1, i => Ready(0, 0));
      FreshLocal(n - 1);
    }
  }

  // ---------------------------------------------------------------------
  // Exactly once, while no lease runs out
  // ---------------------------------------------------------------------

  /** Every initially claimable event is in exactly one place, and the table, the
      workers and the completions agree on which. */
  ghost predicate Tracked(t: Table, ws: seq<Worker>, completions: seq<EventId>, at: Places) {
    && (forall i :: i in Free(t) <==> i in at && at[i].Queued?)
    && (forall i :: i in at ==> i in t && (t[i].processed <==> at[i].Done?))
    && Distinct(completions)
    && (forall i :: i in completions <==> i in at && at[i].Done?)
    && (forall k :: 0 <= k < |ws| && ws[k].Holding? ==>
          Distinct(ws[k].rows) && forall i :: i in ws[k].rows <==> i in at && at[i] == With(k))
    && (forall i :: i in at && at[i].With? ==> at[i].worker < |ws| && ws[at[i].worker].Holding?)
  }

  lemma TrackClaim(t: Table, ws: seq<Worker>, completions: seq<EventId>, at: Places, k: nat, rows: seq<EventId>,
                   worker: string, stamp: int)
    requires Tracked(t, ws, completions, at)
    requires k < |ws| && ws[k].Ready?
    requires Distinct(rows) && ToSet(rows) <= Free(t)
    ensures Tracked(Leased(t, ToSet(rows), worker, stamp), ws[k := Holding(ws[k].events, ws[k].batches, rows)],
                    completions, map i | i in at :: if i in rows then With(k) else at[i])
  {
  }

  lemma TrackComplete(t: Table, ws: seq<Worker>, completions: seq<EventId>, at: Places, k: nat, w: Worker)
    requires Tracked(t, ws, completions, at)
    requires k < |ws| && ws[k].Holding? && !w.Holding?
    ensures Tracked(Completed(t, ToSet(ws[k].rows)), ws[k := w], completions + ws[k].rows,
                    map i | i in at :: if i in ws[k].rows then Done else at[i])
  {
    var all := completions + ws[k].rows;
    forall i, j | 0 <= i < j < |all| ensures all[i] != all[j] {
      if i < |completions| <= j {
        assert all[i] in completions && all[j] in ws[k].rows;
      }
    }
  }

  lemma TrackFail(t: Table, ws: seq<Worker>, completions: seq<EventId>, at: Places, k: nat)
    requires Tracked(t, ws, completions, at)
    requires k < |ws|
    ensures Tracked(t, ws[k := Ended], completions, map i | i in at :: if at[i] == With(k) then Lost else at[i])
  {
  }

  // ---------------------------------------------------------------------
  // At least once, however long it takes
  // ---------------------------------------------------------------------

  ghost predicate InHands(ws: seq<Worker>, i: EventId) {
    exists k :: 0 <= k < |ws| && ws[k].Holding? && i in ws[k].rows
  }

  /** An event that is not done is free, or carries a stamp the clock has reached. */
  ghost predicate Stamped(t: Table, clock: int, i: EventId) {
    i in t && (t[i].processed || t[i].claimedBy.None? || (t[i].claimedAt.Some? && t[i].claimedAt.value <= clock))
  }

  /** Of the events claimable at the start, whether or not leases have run out and
      events have changed hands: none is out of reach, and while no worker has failed
      none is out of everybody's hands. */
  ghost predicate Recoverable(first: set<EventId>, t: Table, ws: seq<Worker>, clock: int, failed: bool, drained: bool) {
    && (forall i :: i in first ==> Stamped(t, clock, i))
    && (!failed ==> forall i :: i in first ==> i in t && (t[i].processed || t[i].claimedBy.None? || InHands(ws, i)))
    && (drained ==> Free(t) == {})
  }

  lemma StillInHands(ws: seq<Worker>, k: nat, w: Worker, i: EventId)
    requires k < |ws|
    ensures InHands(ws, i) && !(ws[k].Holding? && i in ws[k].rows) ==> InHands(ws[k := w], i)
    ensures w.Holding? && i in w.rows ==> InHands(ws[k := w], i)
  {
    if InHands(ws, i) && !(ws[k].Holding? && i in ws[k].rows) {
      var j :| 0 <= j < |ws| && ws[j].Holding? && i in ws[j].rows;
      assert ws[k := w][j] == ws[j];
    }
    assert ws[k := w][k] == w;
  }

  lemma RecoverClaim(first: set<EventId>, t: Table, ws: seq<Worker>, clock: int, failed: bool, drained: bool,
                     k: nat, w: Worker, worker: string, stamp: int)
    requires Recoverable(first, t, ws, clock, failed, drained)
    requires k < |ws| && ws[k].Ready? && w.Holding? && clock <= stamp
    ensures Recoverable(first, Leased(t, ToSet(w.rows), worker, stamp), ws[k := w], stamp, failed, drained)
  {
    forall i { StillInHands(ws, k, w, i); }
  }

  lemma RecoverExit(first: set<EventId>, t: Table, ws: seq<Worker>, clock: int, failed: bool, drained: bool, k: nat, later: int)
    requires Recoverable(first, t, ws, clock, failed, drained)
    requires k < |ws| && ws[k].Ready? && clock <= later && Free(t) == {}
    ensures Recoverable(first, t, ws[k := Ended], later, failed, true)
  {
    forall i { StillInHands(ws, k, Ended, i); }
  }

  lemma RecoverComplete(first: set<EventId>, t: Table, ws: seq<Worker>, clock: int, failed: bool, drained: bool,
                        k: nat, w: Worker, later: int)
    requires Recoverable(first, t, ws, clock, failed, drained)
    requires k < |ws| && ws[k].Holding? && clock <= later
    ensures Recoverable(first, Completed(t, ToSet(ws[k].rows)), ws[k := w], later, failed, drained)
  {
    forall i { StillInHands(ws, k, w, i); }
  }

  lemma RecoverFail(first: set<EventId>, t: Table, ws: seq<Worker>, clock: int, failed: bool, drained: bool, k: nat, later: int)
    requires Recoverable(first, t, ws, clock, failed, drained)
    requires k < |ws| && clock <= later
    ensures Recoverable(first, t, ws[k := Ended], later, true, drained)
  {
  }

  // ---------------------------------------------------------------------
  // run_pool
  // ---------------------------------------------------------------------

  /** What the scheduler's loop keeps, whatever the workers did so far. */
  ghost predicate Running(found: Table, t: Table, ws: seq<Worker>, totals: Totals, log: seq<seq<EventId>>, start: int, batch: nat) {
    LeasesFrom(found, t, start) && Counted(ws, totals, log, batch)
  }

  /** The totals and what the workers have not reported yet count the completed batches of
      the log and their events; no batch, done or in hand, is empty or too large. */
  ghost predicate Counted(ws: seq<Worker>, totals: Totals, log: seq<seq<EventId>>, batch: nat) {
    && totals.events + AllLocal(ws) == |Flat(log)|
    && totals.batches + AllBatches(ws) == |log|
    && Sized(log, batch)
    && (forall k :: 0 <= k < |ws| && ws[k].Holding? ==> 0 < |ws[k].rows| <= batch)
  }

  ghost predicate Sized(log: seq<seq<EventId>>, batch: nat) {
    forall b :: 0 <= b < |log| ==> 0 < |log[b]| <= batch
  }

  /** The events of the batches, one after the other. */
  function Flat(log: seq<seq<EventId>>): seq<EventId> {
    if log == [] then [] else Flat(log[..|log| - 1]) + log[|log| - 1]
  }

  lemma FlatSnoc(log: seq<seq<EventId>>, rows: seq<EventId>)
    ensures Flat(log + [rows]) == Flat(log) + rows
  {
    assert (log + [rows])[..|log|] == log;
  }

  /** So many batches hold at least as many events, and at most that times their size. */
  lemma {:induction false} BatchesHold(log: seq<seq<EventId>>, batch: nat)
    requires Sized(log, batch)
    ensures |log| <= |Flat(log)| <= batch * |log|
  {
    if log != [] {
      BatchesHold(log[..|log| - 1], batch);
      assert batch * |log| == batch * (|log| - 1) + batch;
    }
  }

  /** The pool's accounting when no lease has run out by `clock`. `drained` says
      that some worker has found the queue empty. */
  ghost predicate Settled(t: Table, ws: seq<Worker>, completions: seq<EventId>, at: Places, failed: bool, drained: bool) {
    && Tracked(t, ws, completions, at)
    && (drained ==> Free(t) == {})
    && (!failed ==> forall i :: i in at ==> !at[i].Lost?)
  }

  lemma ClaimKeepsPending(t: Table, ids: set<EventId>, worker: string, at: int)
    ensures Pending(Leased(t, ids, worker, at)) == Pending(t)
  {
  }

  lemma CompletePending(t: Table, rows: seq<EventId>)
    ensures Pending(Completed(t, ToSet(rows))) == Pending(t) - ToSet(rows)
    ensures ToSet(rows) !! Pending(t) ==> Pending(Completed(t, ToSet(rows))) == Pending(t)
    ensures !(ToSet(rows) !! Pending(t)) ==> |Pending(Completed(t, ToSet(rows)))| < |Pending(t)|
  {
    assert Pending(Completed(t, ToSet(rows))) == Pending(t) - ToSet(rows);
    if !(ToSet(rows) !! Pending(t)) {
      assert Pending(t) - ToSet(rows) < Pending(t);
      SmallerSet(Pending(t) - ToSet(rows), Pending(t));
    }
  }

  lemma {:induction false} SmallerSet(a: set<EventId>, b: set<EventId>)
    requires a < b
    ensures |a| < |b|
  {
    assert b == a + (b - a) && b - a != {};
  }

  /** Either an event is done with, or the workers have less left to do. */
  ghost predicate Progress(t0: Table, ws0: seq<Worker>, t: Table, ws: seq<Worker>) {
    || |Pending(t)| < |Pending(t0)|
    || (Pending(t) == Pending(t0) && TotalWeight(ws, Pending(t)) < TotalWeight(ws0, Pending(t0)))
  }

  lemma ClaimKeepsLeases(found: Table, t: Table, ids: set<EventId>, worker: string, stamp: int, start: int)
    requires LeasesFrom(found, t, start) && stamp >= start
    ensures LeasesFrom(found, Leased(t, ids, worker, stamp), start)
  {
  }

  lemma CompleteKeepsLeases(found: Table, t: Table, ids: set<EventId>, start: int)
    requires LeasesFrom(found, t, start)
    ensures LeasesFrom(found, Completed(t, ids), start)
  {
  }

  /** The `except` and `finally` of a worker: its counters are added to the totals;
      its batch, if it holds one, stays leased. */
  method End(ws0: seq<Worker>, totals0: Totals, k: nat, ghost t: Table, ghost log: seq<seq<EventId>>, ghost batch: nat)
    returns (ws: seq<Worker>, totals: Totals)
    requires k < |ws0| && !ws0[k].Ended?
    requires Counted(ws0, totals0, log, batch)
    ensures ws == ws0[k := Ended] && totals.workers == totals0.workers
    ensures Counted(ws, totals, log, batch)
    ensures Progress(t, ws0, t, ws)
  {
    ws := ws0[k := Ended];
    totals := totals0.(events := totals0.events + ws0[k].events, batches := totals0.batches + ws0[k].batches);
    UpdateSums(ws0, k, Ended, Pending(t));
  }

  /** The next claim of an idle worker. An empty one ends it. */
  method TryClaim(q: Queue, ghost found: Table, ws0: seq<Worker>, totals0: Totals, k: nat, batch: nat, lease: nat,
                  ghost start: int, clock: int, later: int, ghost log: seq<seq<EventId>>, ghost at0: Places,
                  ghost failed: bool, ghost drained0: bool)
    returns (ws: seq<Worker>, totals: Totals, ghost at: Places, ghost drained: bool)
    requires batch >= 1 && start <= clock <= later
    requires k < |ws0| && ws0[k].Ready?
    requires Running(found, q.events, ws0, totals0, log, start, batch)
    requires Quiet(found, start, clock, lease) ==> Settled(q.events, ws0, Flat(log), at0, failed, drained0)
    requires Recoverable(at0.Keys, q.events, ws0, clock, failed, drained0)
    modifies q
    ensures |ws| == |ws0| && totals.workers == totals0.workers
    ensures Running(found, q.events, ws, totals, log, start, batch)
    ensures Recoverable(at0.Keys, q.events, ws, later, failed, drained)
    ensures Quiet(found, start, clock, lease) ==> Settled(q.events, ws, Flat(log), at, failed, drained)
    ensures at.Keys == at0.Keys && (drained0 ==> drained)
    ensures ws == ws0[k := ws[k]] && (ws[k].Ended? ==> drained)
    ensures Progress(old(q.events), ws0, q.events, ws)
  {
    hide Settled, LeasesFrom, Quiet, Recoverable, Free, Leased, Progress, AllLocal, FirstBy, NewestFree;
    var w := ws0[k];
    at, drained := at0, drained0;
    var rows := q.Claim("pool", batch, lease, clock, later);
    ghost var t0 := old(q.events);
    ClaimKeepsLeases(found, t0, ToSet(rows), "pool", later, start);
    if Quiet(found, start, clock, lease) { NothingExpires(found, t0, start, clock, lease); }
    if rows == [] {
      EmptyClaim(t0, clock - lease, batch);
      NoneLeased(t0, "pool", later);
      RecoverExit(at0.Keys, t0, ws0, clock, failed, drained0, k, later);
      ws, totals := End(ws0, totals0, k, t0, log, batch);
      drained := true;
      if Quiet(found, start, clock, lease) { ExitSettles(t0, ws0, Flat(log), at0, failed, drained0, k); }
    } else {
      ws := ws0[k := Holding(w.events, w.batches, rows)];
      totals := totals0;
      ClaimSelects(t0, rows, clock - lease, batch);
      ClaimProgress(t0, ws0, k, rows, "pool", later);
      RecoverClaim(at0.Keys, t0, ws0, clock, failed, drained0, k, ws[k], "pool", later);
      at := map i | i in at0 :: if i in rows then With(k) else at0[i];
      if Quiet(found, start, clock, lease) {
        ClaimSettles(t0, ws0, Flat(log), at0, failed, drained0, k, rows, "pool", later);
      }
    }
  }

  lemma NoneLeased(t: Table, worker: string, stamp: int)
    ensures Leased(t, ToSet([]), worker, stamp) == t
  {
  }

  lemma ClaimProgress(t: Table, ws: seq<Worker>, k: nat, rows: seq<EventId>, worker: string, stamp: int)
    requires k < |ws| && ws[k].Ready? && !(ToSet(rows) !! Pending(t))
    ensures
      var after := ws[k := Holding(ws[k].events, ws[k].batches, rows)];
      Progress(t, ws, Leased(t, ToSet(rows), worker, stamp), after) && AllLocal(after) == AllLocal(ws) && AllBatches(after) == AllBatches(ws)
  {
    ClaimKeepsPending(t, ToSet(rows), worker, stamp);
    UpdateSums(ws, k, Holding(ws[k].events, ws[k].batches, rows), Pending(t));
  }

  lemma ClaimSelects(t: Table, rows: seq<EventId>, cutoff: int, batch: nat)
    requires rows != [] && FirstBy(rows, map i | i in ClaimableIds(t, cutoff) :: -t[i].ts, batch)
    ensures Distinct(rows) && ToSet(rows) <= ClaimableIds(t, cutoff) && !(ToSet(rows) !! Pending(t)) && |rows| <= batch
  {
    assert rows[0] in ToSet(rows) && rows[0] in Pending(t);
  }

  lemma ClaimSettles(t: Table, ws: seq<Worker>, completions: seq<EventId>, at: Places, failed: bool, drained: bool,
                     k: nat, rows: seq<EventId>, worker: string, stamp: int)
    requires Settled(t, ws, completions, at, failed, drained)
    requires k < |ws| && ws[k].Ready? && Distinct(rows) && ToSet(rows) <= Free(t)
    ensures Settled(Leased(t, ToSet(rows), worker, stamp), ws[k := Holding(ws[k].events, ws[k].batches, rows)], completions,
                    map i | i in at :: if i in rows then With(k) else at[i], failed, drained)
  {
    hide Tracked;
    TrackClaim(t, ws, completions, at, k, rows, worker, stamp);
    assert Free(Leased(t, ToSet(rows), worker, stamp)) <= Free(t);
  }

  /** The end of a batch: detection ran and completed it in one transaction. */
  method FinishBatch(q: Queue, ghost found: Table, ws0: seq<Worker>, totals: Totals, k: nat, ghost start: int, ghost clock: int,
                     ghost later: int, ghost quiet: bool, ghost log0: seq<seq<EventId>>, ghost at0: Places, ghost failed: bool, ghost drained: bool,
                     ghost batch: nat)
    returns (ws: seq<Worker>, ghost log: seq<seq<EventId>>, ghost at: Places)
    requires k < |ws0| && ws0[k].Holding? && clock <= later
    requires Running(found, q.events, ws0, totals, log0, start, batch)
    requires quiet ==> Settled(q.events, ws0, Flat(log0), at0, failed, drained)
    requires Recoverable(at0.Keys, q.events, ws0, clock, failed, drained)
    modifies q
    ensures Running(found, q.events, ws, totals, log, start, batch)
    ensures Recoverable(at0.Keys, q.events, ws, later, failed, drained)
    ensures quiet ==> Settled(q.events, ws, Flat(log), at, failed, drained)
    ensures at.Keys == at0.Keys
    ensures |ws| == |ws0| && ws == ws0[k := ws[k]] && ws[k].Ready?
    ensures Progress(old(q.events), ws0, q.events, ws)
  {
    hide Settled, LeasesFrom, Recoverable, ToSet, Completed;
    var w := ws0[k];
    ghost var t0 := q.events;
    q.Complete(w.rows);
    CompletePending(t0, w.rows);
    CompleteKeepsLeases(found, t0, ToSet(w.rows), start);
    ws := ws0[k := Ready(w.events + |w.rows|, w.batches + 1)];
    UpdateSums(ws0, k, ws[k], Pending(t0));
    RecoverComplete(at0.Keys, t0, ws0, clock, failed, drained, k, ws[k], later);
    log := log0 + [w.rows];
    FlatSnoc(log0, w.rows);
    at := map i | i in at0 :: if i in w.rows then Done else at0[i];
    if quiet {
      CompleteSettles(t0, ws0, Flat(log0), at0, failed, drained, k, ws[k]);
    }
  }

  lemma CompleteSettles(t: Table, ws: seq<Worker>, completions: seq<EventId>, at: Places, failed: bool, drained: bool,
                        k: nat, w: Worker)
    requires Settled(t, ws, completions, at, failed, drained)
    requires k < |ws| && ws[k].Holding? && !w.Holding?
    ensures Settled(Completed(t, ToSet(ws[k].rows)), ws[k := w], completions + ws[k].rows,
                    map i | i in at :: if i in ws[k].rows then Done else at[i], failed, drained)
  {
    hide Tracked;
    TrackComplete(t, ws, completions, at, k, w);
    assert Free(Completed(t, ToSet(ws[k].rows))) <= Free(t);
  }

  lemma EmptyClaim(t: Table, cutoff: int, batch: nat)
    requires batch >= 1
    requires FirstBy([], map i | i in ClaimableIds(t, cutoff) :: -t[i].ts, batch)
    ensures ClaimableIds(t, cutoff) == {} && Free(t) == {}
  {
    var keys := map i | i in ClaimableIds(t, cutoff) :: -t[i].ts;
    assert keys.Keys == ClaimableIds(t, cutoff);
    assert Free(t) <= ClaimableIds(t, cutoff);
  }

  lemma ExitSettles(t: Table, ws: seq<Worker>, completions: seq<EventId>, at: Places, failed: bool, drained: bool, k: nat)
    requires Settled(t, ws, completions, at, failed, drained)
    requires k < |ws| && ws[k].Ready? && Free(t) == {}
    ensures Settled(t, ws[k := Ended], completions, at, failed, true)
  {
    hide Free;
  }

  method Fail(q: Queue, ghost found: Table, ws0: seq<Worker>, totals0: Totals, k: nat, ghost start: int, ghost clock: int,
              ghost later: int, ghost quiet: bool, ghost log: seq<seq<EventId>>, ghost at0: Places, ghost failed: bool, ghost drained: bool,
              ghost batch: nat)
    returns (ws: seq<Worker>, totals: Totals, ghost at: Places)
    requires k < |ws0| && !ws0[k].Ended? && clock <= later
    requires Running(found, q.events, ws0, totals0, log, start, batch)
    requires quiet ==> Settled(q.events, ws0, Flat(log), at0, failed, drained)
    requires Recoverable(at0.Keys, q.events, ws0, clock, failed, drained)
    ensures ws == ws0[k := Ended] && totals.workers == totals0.workers
    ensures Running(found, q.events, ws, totals, log, start, batch)
    ensures Recoverable(at0.Keys, q.events, ws, later, true, drained)
    ensures quiet ==> Settled(q.events, ws, Flat(log), at, true, drained)
    ensures at.Keys == at0.Keys
    ensures Progress(q.events, ws0, q.events, ws)
  {
    hide Tracked, LeasesFrom, Recoverable;
    RecoverFail(at0.Keys, q.events, ws0, clock, failed, drained, k, later);
    ws, totals := End(ws0, totals0, k, q.events, log, batch);
    at := map i | i in at0 :: if at0[i] == With(k) then Lost else at0[i];
    if quiet { TrackFail(q.events, ws0, Flat(log), at0, k); }
  }

  /** One atomic step of worker k, which may be a failure; the clock may move on
      during a claim. */
  method WorkerStep(q: Queue, ghost found: Table, ws0: seq<Worker>, totals0: Totals, k: nat, fails: bool, batch: nat,
                    lease: nat, ghost start: int, clock: int, later: int, ghost log0: seq<seq<EventId>>,
                    ghost at0: Places, ghost failed0: bool, ghost drained0: bool)
    returns (ws: seq<Worker>, totals: Totals, ghost log: seq<seq<EventId>>, ghost at: Places,
             ghost failed: bool, ghost drained: bool)
    requires batch >= 1 && start <= clock <= later
    requires k < |ws0| && !ws0[k].Ended?
    requires Running(found, q.events, ws0, totals0, log0, start, batch)
    requires Quiet(found, start, clock, lease) ==> Settled(q.events, ws0, Flat(log0), at0, failed0, drained0)
    requires Recoverable(at0.Keys, q.events, ws0, clock, failed0, drained0)
    modifies q
    ensures |ws| == |ws0| && totals.workers == totals0.workers && at.Keys == at0.Keys
    ensures Running(found, q.events, ws, totals, log, start, batch)
    ensures Quiet(found, start, clock, lease) ==> Settled(q.events, ws, Flat(log), at, failed, drained)
    ensures Recoverable(at.Keys, q.events, ws, later, failed, drained)
    ensures failed == (failed0 || fails) && (drained0 ==> drained)
    ensures ws == ws0[k := ws[k]] && (ws[k].Ended? ==> failed || drained)
    ensures Progress(old(q.events), ws0, q.events, ws)
  {
    hide Settled, Running, Quiet, Progress, Recoverable;
    log, at, failed, drained := log0, at0, failed0 || fails, drained0;
    totals := totals0;
    if fails {
      ws, totals, at := Fail(q, found, ws0, totals0, k, start, clock, later, Quiet(found, start, clock, lease),
                             log0, at0, failed0, drained0, batch);
    } else if ws0[k].Ready? {
      ws, totals, at, drained := TryClaim(q, found, ws0, totals0, k, batch, lease, start, clock, later,
                                          log0, at0, failed0, drained0);
    } else {
      ws, log, at := FinishBatch(q, found, ws0, totals0, k, start, clock, later, Quiet(found, start, clock, lease),
                                         log0, at0, failed0, drained0, batch);
    }
  }

  /** The worker threads, from start to join. */
  method Drain(q: Queue, n: nat, batch: nat, lease: nat, start: int)
    returns (totals: Totals, ghost log: seq<seq<EventId>>, ghost at: Places, ghost end: int,
             ghost failed: bool, ghost drained: bool)
    requires batch >= 1 && n >= 1
    requires ClaimableIds(q.events, start - lease) == Free(q.events)
    modifies q
    ensures totals.workers == n && totals.events == |Flat(log)| && totals.batches == |log| && Sized(log, batch)
    ensures at.Keys == Free(old(q.events))
    ensures !failed ==> drained
    ensures AtLeastOnce(q.events, at.Keys, end, failed)
    ensures Quiet(old(q.events), start, end, lease) ==> Outcome(q.events, Flat(log), at, end, failed, drained)
  {
    hide Settled, Quiet, Progress, Free, LeasesFrom, Outcome, Recoverable, AtLeastOnce;
    ghost var found := q.events;
    FreshWorkers(found, start, n);
    var ws := seq(n, i => Ready(0, 0));
    assert !ws[0].Ended?;
    totals := Totals(0, 0, n);
    log, at := [], map i | i in Free(found) :: Queued;
    var clock := start;
    failed, drained := false, false;
    while exists k :: 0 <= k < |ws| && !ws[k].Ended?
      invariant |ws| == n && totals.workers == n && start <= clock
      invariant Running(found, q.events, ws, totals, log, start, batch)
      invariant Quiet(found, start, clock, lease) ==> Settled(q.events, ws, Flat(log), at, failed, drained)
      invariant at.Keys == Free(found)
      invariant Recoverable(at.Keys, q.events, ws, clock, failed, drained)
      invariant failed || drained || !ws[0].Ended?
      decreases |Pending(q.events)|, TotalWeight(ws, Pending(q.events))
    {
      // The scheduler picks a worker, time passes, and the step may fail.
      var k :| 0 <= k < |ws| && !ws[k].Ended?;
      var waited: nat, took: nat, fails: bool := *, *, *;
      QuietEarlier(found, start, clock, clock + waited, lease);
      QuietEarlier(found, start, clock + waited, clock + waited + took, lease);
      RecoverWait(at.Keys, q.events, ws, clock, clock + waited, failed, drained);
      clock := clock + waited;
      ghost var t0, ws0 := q.events, ws;
      ws, totals, log, at, failed, drained :=
        WorkerStep(q, found, ws, totals, k, fails, batch, lease, start, clock, clock + took,
                   log, at, failed, drained);
      clock := clock + took;
      ProgressDecreases(t0, ws0, q.events, ws);
    }
    NoneLocal(ws);
    end := clock;
    NothingLeftBehind(at.Keys, q.events, ws, end, failed, drained);
    if Quiet(found, start, end, lease) {
      Conclude(q.events, ws, Flat(log), at, end, failed, drained);
    }
  }

  lemma RecoverWait(first: set<EventId>, t: Table, ws: seq<Worker>, clock: int, later: int, failed: bool, drained: bool)
    requires Recoverable(first, t, ws, clock, failed, drained) && clock <= later
    ensures Recoverable(first, t, ws, later, failed, drained)
  {
  }

  /** The events claimable at the start, after the pool has ended, however long it
      took: without a failure all are done (perhaps more than once); and one that is
      not done carries no lease that begins after the end. */
  ghost predicate AtLeastOnce(t: Table, first: set<EventId>, end: int, failed: bool) {
    && (!failed ==> forall i :: i in first ==> i in t && t[i].processed)
    && (forall i :: i in first ==> Stamped(t, end, i))
  }

  lemma NothingLeftBehind(first: set<EventId>, t: Table, ws: seq<Worker>, end: int, failed: bool, drained: bool)
    requires Recoverable(first, t, ws, end, failed, drained)
    requires forall k :: 0 <= k < |ws| ==> ws[k].Ended?
    requires !failed ==> drained
    ensures AtLeastOnce(t, first, end, failed)
  {
    if !failed {
      forall i | i in first ensures t[i].processed {
        assert !InHands(ws, i);
        assert i !in Free(t);
      }
    }
  }

  /** What a pool leaves undone, because workers failed, is claimable again for the
      next one at every moment more than a lease after it ended. */
  lemma LeftoversComeBack(t: Table, first: set<EventId>, end: int, failed: bool, lease: nat, later: int)
    requires AtLeastOnce(t, first, end, failed) && later > end + lease
    ensures forall i :: i in first ==> i in t && (t[i].processed || i in ClaimableIds(t, later - lease))
  {
    forall i | i in first ensures i in t && (t[i].processed || i in ClaimableIds(t, later - lease)) {
      assert Stamped(t, end, i);
    }
  }

  lemma ProgressDecreases(t0: Table, ws0: seq<Worker>, t: Table, ws: seq<Worker>)
    requires Progress(t0, ws0, t, ws)
    ensures |Pending(t)| < |Pending(t0)|
         || (|Pending(t)| == |Pending(t0)| && TotalWeight(ws, Pending(t)) < TotalWeight(ws0, Pending(t0)))
  {
  }

  /** What became of the events: each is completed once and only once, or its
      worker failed and it is still pending under a lease no later than the end, or -
      only when every worker failed - it is still queued. Without a failure all are
      completed. */
  ghost predicate Outcome(t: Table, completions: seq<EventId>, at: Places, end: int, failed: bool, drained: bool) {
    && Distinct(completions)
    && (forall i :: i in completions <==> i in at && at[i].Done?)
    && (forall i :: i in at ==> i in t && (t[i].processed <==> at[i].Done?))
    && (forall i :: i in at ==> !at[i].With? && (at[i].Queued? ==> !drained))
    && (forall i :: i in at && at[i].Lost? ==>
          i in t && t[i].claimedBy.Some? && t[i].claimedAt.Some? && t[i].claimedAt.value <= end)
    && (!failed ==> ToSet(completions) == at.Keys && |completions| == |at|)
  }

  /** `run_pool`: drain the backlog with n workers, under any schedule, any
      failures and any passage of time. It ends; without a failure every initially
      claimable event is done; and as long as the run fits in one lease the outcome
      for those events is exactly the one above, whatever n. */
  method RunPool(q: Queue, requested: nat, configured: nat, batch: nat, lease: nat, start: int)
    returns (totals: Totals, ghost log: seq<seq<EventId>>, ghost at: Places, ghost end: int,
             ghost failed: bool, ghost drained: bool)
    requires batch >= 1
    modifies q
    ensures totals.workers == Max(1, if requested != 0 then requested else configured)
    // The batches completed, and what they hold.
    ensures totals.batches == |log| && totals.events == |Flat(log)| && Sized(log, batch)
    ensures totals.batches <= totals.events <= batch * totals.batches
    ensures at.Keys == ClaimableIds(Requeued(old(q.events), start - lease), start - lease)
    ensures forall i :: i in at <==> i in old(q.events) && IsFree(old(q.events)[i], lease, start)
    ensures !failed ==> drained
    ensures AtLeastOnce(q.events, at.Keys, end, failed)
    ensures Quiet(Requeued(old(q.events), start - lease), start, end, lease) ==>
      Outcome(q.events, Flat(log), at, end, failed, drained)
  {
    var n := if requested != 0 then requested else configured;
    n := if n < 1 then 1 else n;
    var requeued := q.RequeueStale(lease, start);
    FreshQueue(old(q.events), start, lease);
    totals, log, at, end, failed, drained := Drain(q, n, batch, lease, start);
    BatchesHold(log, batch);
    FreeAtStart(old(q.events), start, lease);
  }

  lemma FreeAtStart(t: Table, start: int, lease: nat)
    ensures forall i :: i in ClaimableIds(Requeued(t, start - lease), start - lease) <==> i in t && IsFree(t[i], lease, start)
  {
  }

  lemma QuietEarlier(t: Table, start: int, earlier: int, later: int, lease: nat)
    requires earlier <= later
    ensures Quiet(t, start, later, lease) ==> Quiet(t, start, earlier, lease)
  {
  }

  lemma FreshQueue(t: Table, start: int, lease: nat)
    ensures var found := Requeued(t, start - lease); ClaimableIds(found, start - lease) == Free(found)
  {
    var found := Requeued(t, start - lease);
    assert forall i :: i in found ==> (Claimable(found[i], start - lease) <==> i in Free(found));
  }

  lemma FreshWorkers(found: Table, start: int, n: nat)
    ensures LeasesFrom(found, found, start)
    ensures Settled(found, seq(n, i => Ready(0, 0)), [], map i | i in Free(found) :: Queued, false, false)
    ensures AllLocal(seq(n, i => Ready(0, 0))) == AllBatches(seq(n, i => Ready(0, 0))) == 0
    ensures Recoverable(Free(found), found, seq(n, i => Ready(0, 0)), start, false, false)
  {
    FreshLocal(n);
  }

  lemma Conclude(t: Table, ws: seq<Worker>, completions: seq<EventId>, at: Places, end: int, failed: bool, drained: bool)
    requires Settled(t, ws, completions, at, failed, drained)
    requires AtLeastOnce(t, at.Keys, end, failed)
    requires forall k :: 0 <= k < |ws| ==> ws[k].Ended?
    requires !failed ==> drained
    ensures Outcome(t, completions, at, end, failed, drained)
  {
    DistinctCount(completions);
    forall i | i in at && at[i].Lost?
      ensures i in t && t[i].claimedBy.Some? && t[i].claimedAt.Some? && t[i].claimedAt.value <= end
    {
      assert Stamped(t, end, i) && i !in Free(t);
    }
    if !failed && drained {
      assert ToSet(completions) == at.Keys;
    }
  }
}
