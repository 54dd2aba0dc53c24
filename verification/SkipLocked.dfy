/** The worker pool on PostgreSQL: a claim is one statement that locks its rows, skips
    those that other claims under way have locked, and commits. It may come back with
    any of the others, and with none at all while there are claimable events. */
module SkipLocked {
  import Q = EventQueue
  import opened Options

  type EventId = Q.EventId

  /** One worker thread. A claim holds its row locks from the statement to the commit;
      the clock was read before the statement. */
  datatype Worker =
    | Ready
    | Claiming(rows: set<EventId>, reading: int)
    | Holding(rows: set<EventId>)
    | Ended
    | Failed

  datatype State = State(clock: int, table: Q.Table, workers: seq<Worker>, grants: seq<Q.Grant>)

  datatype Action =
    | Tick(secs: nat)
    | Begin(k: nat, rows: set<EventId>, reading: int)
    | Commit(k: nat)
    | Finish(k: nat)       // detection ran and completed the batch in one transaction
    | Fail(k: nat)         // locks are dropped, leases stay

  datatype Config = Config(lease: nat, batch: nat)

  function Locks(w: Worker): set<EventId> {
    if w.Claiming? then w.rows else {}
  }

  ghost predicate Locked(ws: seq<Worker>, i: EventId) {
    exists k :: 0 <= k < |ws| && i in Locks(ws[k])
  }

  /** An update of a locked row waits for the lock; a claim passes it by. */
  ghost predicate Enabled(c: Config, s: State, a: Action) {
    match a
    case Tick(_) => true
    case Begin(k, rows, reading) =>
      var claimable := Q.ClaimableIds(s.table, reading - c.lease);
      && k < |s.workers| && s.workers[k].Ready? && reading <= s.clock
      && |rows| <= c.batch && rows <= claimable && (forall i :: i in rows ==> !Locked(s.workers, i))
      && (rows == {} ==> forall i :: i in claimable ==> Locked(s.workers, i))
    case Commit(k) => k < |s.workers| && s.workers[k].Claiming?
    case Finish(k) => k < |s.workers| && s.workers[k].Holding? && forall i :: i in s.workers[k].rows ==> !Locked(s.workers, i)
    case Fail(k) => k < |s.workers| && !s.workers[k].Ended? && !s.workers[k].Failed?
  }

  ghost function Step(c: Config, s: State, a: Action): State
    requires Enabled(c, s, a)
  {
    match a
    case Tick(secs) => s.(clock := s.clock + secs)
    case Begin(k, rows, reading) => s.(workers := s.workers[k := if rows == {} then Ended else Claiming(rows, reading)])
    case Commit(k) =>
      var rows, reading := s.workers[k].rows, s.workers[k].reading;
      s.(table := Q.Leased(s.table, rows, "pool", reading), workers := s.workers[k := Holding(rows)],
         grants := s.grants + [Q.Grant("pool", rows, reading, s.clock)])
    case Finish(k) => s.(table := Q.Completed(s.table, s.workers[k].rows), workers := s.workers[k := Ready])
    case Fail(k) => s.(workers := s.workers[k := Failed])
  }

  ghost predicate Runs(c: Config, s: State, run: seq<Action>)
    decreases |run|
  {
    run == [] || (Enabled(c, s, run[0]) && Runs(c, Step(c, s, run[0]), run[1..]))
  }

  ghost function After(c: Config, s: State, run: seq<Action>): State
    requires Runs(c, s, run)
    decreases |run|
  {
    if run == [] then s else After(c, Step(c, s, run[0]), run[1..])
  }

  /** n workers on a table whose stale leases have just been released. */
  function Start(clock: int, found: Q.Table, n: nat): State {
    State(clock, found, seq(n, i => Ready), [])
  }

  // ---------------------------------------------------------------------
  // Locks
  // ---------------------------------------------------------------------

  /** What a claim under way has locked is still claimable, and locked by it alone. */
  ghost predicate Inv(c: Config, s: State) {
    && (forall k :: 0 <= k < |s.workers| && s.workers[k].Claiming? ==>
          s.workers[k].rows != {} && s.workers[k].reading <= s.clock
          && s.workers[k].rows <= Q.ClaimableIds(s.table, s.workers[k].reading - c.lease))
    && (forall j, k :: 0 <= j < k < |s.workers| ==> Locks(s.workers[j]) !! Locks(s.workers[k]))
  }

  lemma Unlocked(ws: seq<Worker>, rows: set<EventId>)
    requires forall i :: i in rows ==> !Locked(ws, i)
    ensures forall j :: 0 <= j < |ws| ==> Locks(ws[j]) !! rows
  {
    forall j, i | 0 <= j < |ws| && i in rows ensures i !in Locks(ws[j]) {
      assert !Locked(ws, i);
    }
  }

  lemma InvStep(c: Config, s: State, a: Action)
    requires Inv(c, s) && Enabled(c, s, a)
    ensures Inv(c, Step(c, s, a))
  {
    hide Locked;
    if a.Begin? {
      Unlocked(s.workers, a.rows);
    } else if a.Finish? {
      Unlocked(s.workers, s.workers[a.k].rows);
    }
  }

  // ---------------------------------------------------------------------
  // No event is handed out twice within a lease
  // ---------------------------------------------------------------------

  /** What the queue sees of a step: a claim where it commits. */
  function Seen(s: State, a: Action): seq<Q.Action> {
    match a
    case Tick(secs) => [Q.Tick(secs)]
    case Commit(k) =>
      if k < |s.workers| && s.workers[k].Claiming? then
        [Q.Claim("pool", s.workers[k].rows, s.workers[k].reading, s.workers[k].reading)]
      else []
    case Finish(k) => if k < |s.workers| && s.workers[k].Holding? then [Q.Complete(s.workers[k].rows)] else []
    case _ => []
  }

  ghost predicate Same(s: State, q: Q.State) {
    s.clock == q.clock && s.table == q.events && s.grants == q.grants
  }

  lemma SeenStep(c: Config, s: State, a: Action, q: Q.State)
    requires Inv(c, s) && Enabled(c, s, a) && Same(s, q)
    ensures Q.Runs(c.lease, q, Seen(s, a)) && Same(Step(c, s, a), Q.After(c.lease, q, Seen(s, a)))
  {
    var seen := Seen(s, a);
    if seen != [] {
      assert Q.Enabled(c.lease, q, seen[0]);
      assert seen[1..] == [];
    }
  }

  lemma {:induction false} Concat(lease: nat, q: Q.State, a: seq<Q.Action>, b: seq<Q.Action>)
    requires |a| <= 1 && Q.Runs(lease, q, a) && Q.Runs(lease, Q.After(lease, q, a), b)
    ensures Q.Runs(lease, q, a + b) && Q.After(lease, q, a + b) == Q.After(lease, Q.After(lease, q, a), b)
  {
    hide Q.Step, Q.Enabled;
    if a == [] {
      assert a + b == b;
    } else {
      assert (a + b)[0] == a[0] && (a + b)[1..] == b && a[1..] == [];
    }
  }

  /** Every run of the pool is, to the queue, one of its runs, with the same grants. */
  lemma {:induction false} Refines(c: Config, s: State, run: seq<Action>, q: Q.State) returns (seen: seq<Q.Action>)
    requires Inv(c, s) && Runs(c, s, run) && Same(s, q)
    ensures Q.Runs(c.lease, q, seen) && Same(After(c, s, run), Q.After(c.lease, q, seen))
    decreases |run|
  {
    if run == [] {
      seen := [];
    } else {
      hide Inv, Enabled, Step, Q.Runs, Q.After, Same;
      InvStep(c, s, run[0]);
      SeenStep(c, s, run[0], q);
      var first := Seen(s, run[0]);
      var rest := Refines(c, Step(c, s, run[0]), run[1..], Q.After(c.lease, q, first));
      Concat(c.lease, q, first, rest);
      seen := first + rest;
    }
  }

  /** So two batches that share an event are more than a lease apart, over every run,
      whatever the claims skip and whoever fails. */
  lemma NoDoubleGrant(c: Config, clock: int, found: Q.Table, n: nat, run: seq<Action>, a: nat, b: nat)
    requires Runs(c, Start(clock, found, n), run)
    requires a < b < |After(c, Start(clock, found, n), run).grants|
    ensures var s := After(c, Start(clock, found, n), run);
      s.grants[a].ids * s.grants[b].ids != {} ==> s.grants[b].clock > s.grants[a].stamp + c.lease
  {
    hide Runs, After, Q.Runs, Q.After;
    var seen := Refines(c, Start(clock, found, n), run, Q.State(clock, found, [], {}));
    Q.NoDoubleGrant(c.lease, found, clock, seen, a, b);
  }

  // ---------------------------------------------------------------------
  // Nothing is left behind
  // ---------------------------------------------------------------------

  ghost predicate InHands(ws: seq<Worker>, i: EventId) {
    exists k :: 0 <= k < |ws| && ws[k].Holding? && i in ws[k].rows
  }

  ghost predicate AllEnded(ws: seq<Worker>) {
    forall k :: 0 <= k < |ws| ==> ws[k].Ended?
  }

  ghost predicate Free(t: Q.Table, i: EventId) {
    i in t && !t[i].processed && t[i].claimedBy.None?
  }

  /** Each event is done, free, or in somebody's hands; none is free once every worker
      has ended. */
  ghost predicate Kept(first: set<EventId>, s: State) {
    && (forall i :: i in first ==> i in s.table && (s.table[i].processed || Free(s.table, i) || InHands(s.workers, i)))
    && (AllEnded(s.workers) ==> forall i :: !Free(s.table, i))
  }

  lemma HandsOfOthers(ws: seq<Worker>, k: nat, w: Worker, i: EventId)
    requires k < |ws|
    ensures InHands(ws, i) && !(ws[k].Holding? && i in ws[k].rows) ==> InHands(ws[k := w], i)
    ensures w.Holding? && i in w.rows ==> InHands(ws[k := w], i)
  {
    if InHands(ws, i) && !(ws[k].Holding? && i in ws[k].rows) {
      var j :| 0 <= j < |ws| && ws[j].Holding? && i in ws[j].rows;
      assert ws[k := w][j] == ws[j];
    }
    assert ws[k := w][k] == w;
  }

  /** The last worker to end finds no claim under way, so an empty claim of its means
      that nothing was claimable. */
  lemma LastEnds(c: Config, s: State, k: nat, reading: int)
    requires Enabled(c, s, Begin(k, {}, reading)) && AllEnded(s.workers[k := Ended])
    ensures forall i :: !Free(s.table, i)
  {
    forall j | 0 <= j < |s.workers| ensures Locks(s.workers[j]) == {} {
      assert s.workers[k := Ended][j].Ended?;
    }
    forall i ensures !Free(s.table, i) {
      assert Free(s.table, i) ==> i in Q.ClaimableIds(s.table, reading - c.lease);
    }
  }

  lemma KeptStep(c: Config, first: set<EventId>, s: State, a: Action)
    requires Kept(first, s) && Enabled(c, s, a) && !a.Fail?
    ensures Kept(first, Step(c, s, a))
  {
    var t := Step(c, s, a);
    if !a.Tick? {
      assert t.workers == s.workers[a.k := t.workers[a.k]];
      forall i { HandsOfOthers(s.workers, a.k, t.workers[a.k], i); }
      if AllEnded(t.workers) {
        assert t.workers[a.k].Ended?;
        LastEnds(c, s, a.k, a.reading);
      }
    }
  }

  lemma {:induction false} KeptRun(c: Config, first: set<EventId>, s: State, run: seq<Action>)
    requires Kept(first, s) && Runs(c, s, run) && forall k :: 0 <= k < |run| ==> !run[k].Fail?
    ensures Kept(first, After(c, s, run))
    decreases |run|
  {
    if run != [] {
      hide Kept, Enabled, Step;
      assert forall k :: 0 <= k < |run[1..]| ==> run[1..][k] == run[k + 1];
      KeptStep(c, first, s, run[0]);
      KeptRun(c, first, Step(c, s, run[0]), run[1..]);
    }
  }

  /** Without a failure every event that was free at the start is done when all workers
      have ended, however many claims came back short or empty on the way. */
  lemma AllDone(c: Config, clock: int, found: Q.Table, n: nat, run: seq<Action>, i: EventId)
    requires n >= 1 && Runs(c, Start(clock, found, n), run) && forall k :: 0 <= k < |run| ==> !run[k].Fail?
    requires Free(found, i) && AllEnded(After(c, Start(clock, found, n), run).workers)
    ensures var t := After(c, Start(clock, found, n), run).table; i in t && t[i].processed
  {
    hide Runs, After;
    var s := Start(clock, found, n);
    assert !s.workers[0].Ended?;
    KeptRun(c, {i}, s, run);
    assert !InHands(After(c, s, run).workers, i);
  }

  // ---------------------------------------------------------------------
  // The pool ends
  // ---------------------------------------------------------------------

  /** Work left for one worker; a batch that somebody else has finished weighs most. */
  function Weight(w: Worker, pending: set<EventId>): nat {
    match w
    case Ready => 3
    case Claiming(_, _) => 2
    case Holding(rows) => if rows !! pending then 4 else 1
    case Ended => 0
    case Failed => 0
  }

  function TotalWeight(ws: seq<Worker>, pending: set<EventId>): nat {
    if ws == [] then 0 else TotalWeight(ws[..|ws| - 1], pending) + Weight(ws[|ws| - 1], pending)
  }

  function Potential(s: State): nat {
    |Q.Pending(s.table)| * (4 * |s.workers| + 1) + TotalWeight(s.workers, Q.Pending(s.table))
  }

  lemma {:induction false} UpdateWeight(ws: seq<Worker>, k: nat, w: Worker, pending: set<EventId>)
    requires k < |ws|
    ensures TotalWeight(ws[k := w], pending) == TotalWeight(ws, pending) - Weight(ws[k], pending) + Weight(w, pending)
  {
    var init := ws[..|ws| - 1];
    if k == |init| {
      assert ws[k := w][..|init|] == init;
    } else {
      assert ws[k := w][..|init|] == init[k := w];
      UpdateWeight(init, k, w, pending);
    }
  }

  lemma {:induction false} WeightBound(ws: seq<Worker>, pending: set<EventId>)
    ensures TotalWeight(ws, pending) <= 4 * |ws|
  {
    if ws != [] { WeightBound(ws[..|ws| - 1], pending); }
  }

  lemma FewerPending(t: Q.Table, rows: set<EventId>)
    ensures Q.Pending(Q.Completed(t, rows)) == Q.Pending(t) - rows
    ensures rows !! Q.Pending(t) ==> Q.Pending(Q.Completed(t, rows)) == Q.Pending(t)
    ensures !(rows !! Q.Pending(t)) ==> |Q.Pending(Q.Completed(t, rows))| < |Q.Pending(t)|
  {
    var p := Q.Pending(t);
    Q.CompleteMoves(t, rows);
    assert Q.Pending(Q.Completed(t, rows)) == p - rows;
    if i :| i in rows && i in p {
      assert i in rows * p;
    }
  }

  lemma {:induction false} Times(p: nat, q: nat, m: nat)
    requires q < p
    ensures q * m + m <= p * m
  {
    if q + 1 < p { Times(p - 1, q, m); }
  }

  /** A step that leaves the pending events as they are and one worker with less to do. */
  lemma LighterWorker(s: State, t: State, k: nat)
    requires k < |s.workers| == |t.workers| && t.workers == s.workers[k := t.workers[k]]
    requires Q.Pending(t.table) == Q.Pending(s.table)
    requires Weight(t.workers[k], Q.Pending(s.table)) < Weight(s.workers[k], Q.Pending(s.table))
    ensures Potential(t) < Potential(s)
  {
    UpdateWeight(s.workers, k, t.workers[k], Q.Pending(s.table));
  }

  /** A step that finishes an event. */
  lemma EventFinished(s: State, t: State)
    requires |t.workers| == |s.workers| && |Q.Pending(t.table)| < |Q.Pending(s.table)|
    ensures Potential(t) < Potential(s)
  {
    hide Q.Pending, TotalWeight;
    WeightBound(t.workers, Q.Pending(t.table));
    Times(|Q.Pending(s.table)|, |Q.Pending(t.table)|, 4 * |s.workers| + 1);
  }

  lemma SamePotential(s: State, t: State)
    requires t.workers == s.workers && t.table == s.table
    ensures Potential(t) == Potential(s)
  {
  }

  lemma CommitProgress(c: Config, s: State, k: nat)
    requires Inv(c, s) && Enabled(c, s, Commit(k))
    ensures Potential(Step(c, s, Commit(k))) < Potential(s)
  {
    hide Potential, TotalWeight;
    var t, rows := Step(c, s, Commit(k)), s.workers[k].rows;
    assert Q.Pending(t.table) == Q.Pending(s.table);
    var i :| i in rows;
    assert i in rows && i in Q.Pending(s.table);
    LighterWorker(s, t, k);
  }

  lemma FinishProgress(c: Config, s: State, k: nat)
    requires Enabled(c, s, Finish(k))
    ensures Potential(Step(c, s, Finish(k))) < Potential(s)
  {
    hide Potential, TotalWeight, Q.Pending, Q.Completed;
    var t := Step(c, s, Finish(k));
    FewerPending(s.table, s.workers[k].rows);
    if s.workers[k].rows !! Q.Pending(s.table) {
      LighterWorker(s, t, k);
    } else {
      EventFinished(s, t);
    }
  }

  lemma StepProgress(c: Config, s: State, a: Action)
    requires Inv(c, s) && Enabled(c, s, a)
    ensures if a.Tick? then Potential(Step(c, s, a)) == Potential(s) else Potential(Step(c, s, a)) < Potential(s)
  {
    hide Potential, TotalWeight, Inv, Q.Pending;
    match a
    case Tick(_) => SamePotential(s, Step(c, s, a));
    case Begin(k, _, _) => LighterWorker(s, Step(c, s, a), k);
    case Commit(k) => CommitProgress(c, s, k);
    case Finish(k) => FinishProgress(c, s, k);
    case Fail(k) => LighterWorker(s, Step(c, s, a), k);
  }

  function Work(run: seq<Action>): nat {
    if run == [] then 0 else (if run[0].Tick? then 0 else 1) + Work(run[1..])
  }

  /** No run holds more steps of workers than the potential it starts with. */
  lemma {:induction false} Bounded(c: Config, s: State, run: seq<Action>)
    requires Inv(c, s) && Runs(c, s, run)
    ensures Inv(c, After(c, s, run)) && Work(run) + Potential(After(c, s, run)) <= Potential(s)
    decreases |run|
  {
    if run != [] {
      hide Inv, Enabled, Step, Potential;
      InvStep(c, s, run[0]);
      StepProgress(c, s, run[0]);
      Bounded(c, Step(c, s, run[0]), run[1..]);
    }
  }

  /** And while a worker is left, some worker has a step to take: nobody waits for a lock
      that is never given up. */
  lemma NotStuck(c: Config, s: State, k: nat) returns (a: Action)
    requires Inv(c, s) && c.batch >= 1 && k < |s.workers| && !s.workers[k].Ended? && !s.workers[k].Failed?
    ensures Enabled(c, s, a) && !a.Tick? && !a.Fail?
  {
    if j :| 0 <= j < |s.workers| && s.workers[j].Claiming? {
      a := Commit(j);
    } else {
      assert forall i :: !Locked(s.workers, i);
      if s.workers[k].Holding? {
        a := Finish(k);
      } else {
        var claimable := Q.ClaimableIds(s.table, s.clock - c.lease);
        if claimable == {} {
          a := Begin(k, {}, s.clock);
        } else {
          var i :| i in claimable;
          a := Begin(k, {i}, s.clock);
        }
      }
    }
  }

  ghost predicate AllStopped(ws: seq<Worker>) {
    forall k :: 0 <= k < |ws| ==> ws[k].Ended? || ws[k].Failed?
  }

  /** So a pool ends under every schedule: any run can be brought to an end at which all
      workers have ended or failed, by steps that are no failures. */
  lemma {:induction false} PoolEnds(c: Config, s: State) returns (rest: seq<Action>)
    requires Inv(c, s) && c.batch >= 1
    ensures Runs(c, s, rest) && (forall k :: 0 <= k < |rest| ==> !rest[k].Fail?)
    ensures AllStopped(After(c, s, rest).workers)
    decreases Potential(s)
  {
    if k :| 0 <= k < |s.workers| && !s.workers[k].Ended? && !s.workers[k].Failed? {
      var a := NotStuck(c, s, k);
      InvStep(c, s, a);
      StepProgress(c, s, a);
      var t := Step(c, s, a);
      hide Inv, Enabled, Step, Potential;
      var more := PoolEnds(c, t);
      rest := [a] + more;
      assert rest[1..] == more;
    } else {
      rest := [];
    }
  }
}
