/** The backlog of the matching passes: when a waiting event is examined, and how one
    can be kept waiting. A pass selects by timestamp, so what counts is how many
    waiting events are not newer. All lines of a request, and all requests of a second,
    carry one stamp; which of them a pass takes first is open. */
module ThreatBacklog {
  import opened Collections
  import opened FirstReceipts
  import Lifecycle
  import opened OrderedLimit
  import opened ThreatMatching

  // ---------------------------------------------------------------------
  // What a pass leaves
  // ---------------------------------------------------------------------

  type Waiting = map<EventId, int>

  /** The waiting events of timestamp `t` or before. */
  function NotNewer(w: Waiting, t: int): set<EventId> {
    set j | j in w && w[j] <= t
  }

  /** The waiting events not newer than one of them, itself included. */
  function Ahead(w: Waiting, i: EventId): set<EventId>
    requires i in w
  {
    NotNewer(w, w[i])
  }

  function Older(w: Waiting, i: EventId): set<EventId>
    requires i in w
  {
    NotNewer(w, w[i] - 1)
  }

  lemma Fits<T>(a: set<T>, b: set<T>)
    requires a <= b
    ensures |a| <= |b| && |b - a| == |b| - |a|
  {
    assert b == a + (b - a);
  }

  /** A pass takes as many events of timestamp `t` or before as it may, or all. */
  lemma PassTakes(w: Waiting, rows: seq<EventId>, limit: nat, t: int)
    requires FirstBy(rows, w, limit)
    ensures |NotNewer(w - ToSet(rows), t)| == if |NotNewer(w, t)| <= limit then 0 else |NotNewer(w, t)| - limit
  {
    hide FirstBy, Distinct;
    TakenAreRows(w, rows, limit);
    DistinctCount(rows);
    var taken, before := ToSet(rows), NotNewer(w, t);
    assert NotNewer(w - taken, t) == before - taken;
    if newer :| newer in taken && w[newer] > t {
      forall j | j in before ensures j in taken {
        if j !in rows { TakenFirst(w, rows, limit, j, newer); }
      }
      Fits(before, taken);
      assert before - taken == {};
    } else {
      assert taken <= before;
      Fits(taken, before);
      Fits(taken, w.Keys);
      Fits(before, w.Keys);
      if |rows| == |w| { assert w.Keys - taken == {}; }
    }
  }

  /** A pass that takes an event has room for all older ones. */
  lemma TakenAfterOlder(w: Waiting, rows: seq<EventId>, limit: nat, i: EventId)
    requires FirstBy(rows, w, limit) && i in w && i in rows
    ensures |Older(w, i)| < limit
  {
    hide FirstBy, Distinct;
    TakenAreRows(w, rows, limit);
    DistinctCount(rows);
    forall j | j in Older(w, i) ensures j in rows {
      if j !in rows { TakenFirst(w, rows, limit, j, i); }
    }
    assert Older(w, i) + {i} <= ToSet(rows);
    Fits(Older(w, i) + {i}, ToSet(rows));
  }

  /** The same order, but for one event, which its equals now precede or follow. */
  function Nudged(w: Waiting, i: EventId, shift: int): Waiting {
    map j | j in w :: if j == i then 2 * w[j] + shift else 2 * w[j]
  }

  lemma NudgedFirst(w: Waiting, i: EventId, shift: int, rows: seq<EventId>, limit: nat)
    requires shift == 1 || shift == -1
    requires FirstBy(rows, Nudged(w, i, shift), limit)
    ensures FirstBy(rows, w, limit)
  {
    assert Nudged(w, i, shift).Keys == w.Keys;
    assert |Nudged(w, i, shift)| == |w|;
    forall a, b | 0 <= a < b < |rows| ensures w[rows[a]] <= w[rows[b]] {
      assert Nudged(w, i, shift)[rows[a]] <= Nudged(w, i, shift)[rows[b]];
    }
    forall id, a | id in w && id !in rows && 0 <= a < |rows| ensures w[rows[a]] <= w[id] {
      assert Nudged(w, i, shift)[rows[a]] <= Nudged(w, i, shift)[id];
    }
  }

  /** With more than a batch not newer than an event, a pass may leave it out ... */
  lemma Spared(w: Waiting, i: EventId, limit: nat) returns (rows: seq<EventId>)
    requires i in w && |Ahead(w, i)| > limit
    ensures FirstBy(rows, w, limit) && i !in rows
  {
    hide FirstBy;
    var n := Nudged(w, i, 1);
    rows := FirstByExists(n, limit);
    NudgedFirst(w, i, 1, rows, limit);
    assert Older(n, i) == Ahead(w, i) - {i};
    Fits({i}, Ahead(w, i));
    if i in rows {
      TakenAfterOlder(n, rows, limit, i);
    }
  }

  /** ... and with less than a batch older than it, a pass may take it. */
  lemma Favoured(w: Waiting, i: EventId, limit: nat) returns (rows: seq<EventId>)
    requires i in w && |Older(w, i)| < limit
    ensures FirstBy(rows, w, limit) && i in rows
  {
    hide FirstBy;
    var n := Nudged(w, i, -1);
    rows := FirstByExists(n, limit);
    NudgedFirst(w, i, -1, rows, limit);
    assert Ahead(n, i) == Older(w, i) + {i};
    PassTakes(n, rows, limit, n[i]);
    var left := NotNewer(n - ToSet(rows), n[i]);
    assert left == {};
    assert i in left || i in rows;
  }

  // ---------------------------------------------------------------------
  // Counting over runs
  // ---------------------------------------------------------------------

  /** How the number of waiting events of timestamp `t` or before goes on: a pass takes
      a batch off, an ingest of such a timestamp adds one. */
  function Next(n: nat, a: Action, t: int): nat {
    match a
    case Ingest(_, what) => if what.ts <= t then n + 1 else n
    case Pass(_, _, _) => if n <= 500 then 0 else n - 500
    case _ => n
  }

  /** That number after a run: it depends on the arrivals and the passes alone. */
  function Left(n: nat, run: seq<Action>, t: int): nat
    decreases |run|
  {
    if run == [] then n else Left(Next(n, run[0], t), run[1..], t)
  }

  function Passes(run: seq<Action>): nat
    decreases |run|
  {
    if run == [] then 0 else (if run[0].Pass? then 1 else 0) + Passes(run[1..])
  }

  /** The ingests of timestamp `t` or before. */
  function Arrivals(run: seq<Action>, t: int): nat
    decreases |run|
  {
    if run == [] then 0 else (if run[0].Ingest? && run[0].what.ts <= t then 1 else 0) + Arrivals(run[1..], t)
  }

  lemma WaitsIsUnchecked(events: Events, i: EventId)
    ensures i in Unchecked(events) <==> i in events && !events[i].checked
    ensures i in Unchecked(events) ==> Unchecked(events)[i] == events[i].ts
  {
  }

  lemma StepKeeps(s: State, a: Action)
    requires Enabled(s, a)
    ensures a.Ingest? ==> Unchecked(Step(s, a).events) == Unchecked(s.events)[a.event := a.what.ts] && a.event !in Unchecked(s.events)
    ensures a.Import? || a.SetStatus? ==> Step(s, a).events == s.events
  {
    hide Mentions, AfterSightings, ToAlert, Dedup, FirstBy, Hits;
  }

  lemma LeftStep(s: State, a: Action, t: int)
    requires Enabled(s, a)
    ensures |NotNewer(Unchecked(Step(s, a).events), t)| == Next(|NotNewer(Unchecked(s.events), t)|, a, t)
  {
    hide Step, Enabled, FirstBy, Unchecked;
    var w := Unchecked(s.events);
    StepKeeps(s, a);
    if a.Pass? {
      PassLeaves(s, a);
      PassTakes(w, a.rows, TI_BATCH, t);
    } else if a.Ingest? {
      assert NotNewer(w[a.event := a.what.ts], t) == NotNewer(w, t) + (if a.what.ts <= t then {a.event} else {});
    }
  }

  lemma PassLeaves(s: State, a: Action)
    requires a.Pass? && Enabled(s, a)
    ensures FirstBy(a.rows, Unchecked(s.events), TI_BATCH)
    ensures Unchecked(Step(s, a).events) == Unchecked(s.events) - ToSet(a.rows)
  {
    hide Mentions, AfterSightings, ToAlert, Dedup, FirstBy, Hits;
    StillUnchecked(s.events, a.rows);
  }

  /** Over every run, whatever the ties and whatever comes in: how many events of
      timestamp `t` or before are waiting is settled by the arrivals and the passes. */
  lemma {:induction false} LeftWaiting(s: State, run: seq<Action>, t: int)
    requires Runs(s, run)
    ensures |NotNewer(Unchecked(After(s, run).events), t)| == Left(|NotNewer(Unchecked(s.events), t)|, run, t)
    decreases |run|
  {
    if run != [] {
      hide Step, Enabled, Unchecked, NotNewer;
      LeftStep(s, run[0], t);
      LeftWaiting(Step(s, run[0]), run[1..], t);
    }
  }

  /** So everything of a timestamp or before has been examined if and only if the
      passes have made up for what was there and what came in. */
  lemma NoneWaitsIff(s: State, run: seq<Action>, t: int)
    requires Runs(s, run)
    ensures (forall j :: j in After(s, run).events && After(s, run).events[j].ts <= t ==> After(s, run).events[j].checked)
       <==> Left(|NotNewer(Unchecked(s.events), t)|, run, t) == 0
  {
    hide Runs, Left, After;
    LeftWaiting(s, run, t);
    var events := After(s, run).events;
    var waiting := NotNewer(Unchecked(events), t);
    if waiting == {} {
      forall j | j in events && events[j].ts <= t ensures events[j].checked {
        assert events[j].checked || j in waiting;
      }
    } else {
      var j :| j in waiting;
      assert j in events && events[j].ts <= t && !events[j].checked;
      Fits({j}, waiting);
    }
  }

  // ---------------------------------------------------------------------
  // Every waiting event's turn
  // ---------------------------------------------------------------------

  /** At some point of the run the number is down to nothing. */
  predicate Drained(n: nat, run: seq<Action>, t: int)
    decreases |run|
  {
    n == 0 || (run != [] && Drained(Next(n, run[0], t), run[1..], t))
  }

  /** Passes with room for all that was there and all that came in are enough. */
  lemma {:induction false} RoomForAll(n: nat, run: seq<Action>, t: int)
    requires TI_BATCH * Passes(run) >= n + Arrivals(run, t)
    ensures Drained(n, run, t)
    decreases |run|
  {
    if n > 0 && Next(n, run[0], t) > 0 {
      RoomForAll(Next(n, run[0], t), run[1..], t);
    }
  }

  lemma {:induction false} StaysExamined(s: State, run: seq<Action>, i: EventId)
    requires Runs(s, run) && i in s.events && s.events[i].checked
    ensures i in After(s, run).events && After(s, run).events[i].checked
    decreases |run|
  {
    if run != [] {
      hide Mentions, AfterSightings, ToAlert, Dedup, FirstBy, Hits, Unchecked;
      StaysExamined(Step(s, run[0]), run[1..], i);
    }
  }

  lemma {:induction false} DrainedExamines(s: State, run: seq<Action>, i: EventId)
    requires Runs(s, run) && i in Unchecked(s.events)
    requires Drained(|Ahead(Unchecked(s.events), i)|, run, s.events[i].ts)
    ensures i in After(s, run).events && After(s, run).events[i].checked
    decreases |run|
  {
    hide Unchecked, NotNewer, FirstBy, Step, Enabled;
    WaitsIsUnchecked(s.events, i);
    AheadOfItself(Unchecked(s.events), i);
    var t := Step(s, run[0]);
    StillOrDone(s, run[0], i);
    if t.events[i].checked {
      StaysExamined(t, run[1..], i);
    } else {
      WaitsOn(s, run[0], run[0], i);
      DrainedExamines(t, run[1..], i);
    }
  }

  lemma AheadOfItself(w: Waiting, i: EventId)
    requires i in w
    ensures |Ahead(w, i)| >= 1
  {
    Fits({i}, Ahead(w, i));
  }

  lemma StillOrDone(s: State, a: Action, i: EventId)
    requires Enabled(s, a) && i in s.events
    ensures i in Step(s, a).events && Step(s, a).events[i].ts == s.events[i].ts
    ensures s.events[i].checked ==> Step(s, a).events[i].checked
    ensures !s.events[i].checked ==> (Step(s, a).events[i].checked <==> a.Pass? && i in a.rows)
  {
    hide Mentions, AfterSightings, ToAlert, Dedup, FirstBy, Hits;
  }

  /** A step, or another pass instead of it, that leaves an event waiting. */
  lemma WaitsOn(s: State, b: Action, a: Action, i: EventId)
    requires Enabled(s, b) && (a == b || (a.Pass? && b.Pass?))
    requires i in Unchecked(s.events) && i in Step(s, b).events && !Step(s, b).events[i].checked
    ensures s.events[i].ts == Step(s, b).events[i].ts && i in Unchecked(Step(s, b).events)
    ensures |Ahead(Unchecked(Step(s, b).events), i)| == Next(|Ahead(Unchecked(s.events), i)|, a, s.events[i].ts)
    ensures |Older(Unchecked(Step(s, b).events), i)| == Next(|Older(Unchecked(s.events), i)|, a, s.events[i].ts - 1)
  {
    hide Unchecked, NotNewer, Step, Enabled;
    WaitsIsUnchecked(s.events, i);
    StillOrDone(s, b, i);
    WaitsIsUnchecked(Step(s, b).events, i);
    LeftStep(s, b, s.events[i].ts);
    LeftStep(s, b, s.events[i].ts - 1);
  }

  /** With m waiting events not newer than one, itself included, and k more of its
      second or an earlier one coming in, the pass that brings the room for m + k events
      has examined it. */
  lemma TurnComes(s: State, run: seq<Action>, i: EventId)
    requires Runs(s, run) && i in Unchecked(s.events)
    requires 500 * Passes(run) >= |Ahead(Unchecked(s.events), i)| + Arrivals(run, s.events[i].ts)
    ensures i in After(s, run).events && After(s, run).events[i].checked
  {
    hide Runs, After, Unchecked, Ahead;
    WaitsIsUnchecked(s.events, i);
    RoomForAll(|Ahead(Unchecked(s.events), i)|, run, s.events[i].ts);
    DrainedExamines(s, run, i);
  }

  /** Every event is examined in exactly one pass: over every run, whatever came before
      the event, once the number of those not newer is down to nothing. */
  lemma ExaminedExactlyOnce(s: State, before: seq<Action>, run: seq<Action>, i: EventId)
    requires Fresh(s) && Runs(s, before) && Runs(After(s, before), run)
    requires var t := After(s, before);
      i in t.events && (i in Unchecked(t.events) ==> Drained(|Ahead(Unchecked(t.events), i)|, run, t.events[i].ts))
    ensures multiset(After(After(s, before), run).examined)[i] == 1
  {
    hide Runs, After, Ahead, Unchecked, Drained;
    var t := After(s, before);
    InvRun(s, before);
    InvRun(t, run);
    WaitsIsUnchecked(t.events, i);
    if i in Unchecked(t.events) {
      DrainedExamines(t, run, i);
    } else {
      StaysExamined(t, run, i);
    }
    DistinctMultiset(After(t, run).examined, i);
  }

  /** A backlog with nothing coming in is gone after as many passes as its events
      fill. */
  lemma {:induction false} BacklogDrains(s: State, run: seq<Action>, i: EventId)
    requires Runs(s, run) && (forall k :: 0 <= k < |run| ==> !run[k].Ingest?)
    requires 500 * Passes(run) >= |Unchecked(s.events)| && i in s.events
    ensures i in After(s, run).events && After(s, run).events[i].checked
  {
    hide Runs, After, Unchecked;
    WaitsIsUnchecked(s.events, i);
    if i in Unchecked(s.events) {
      var w := Unchecked(s.events);
      Fits(Ahead(w, i), w.Keys);
      assert |w.Keys| == |w|;
      NoArrivals(run, s.events[i].ts);
      TurnComes(s, run, i);
    } else {
      StaysExamined(s, run, i);
    }
  }

  lemma {:induction false} NoArrivals(run: seq<Action>, t: int)
    requires forall k :: 0 <= k < |run| && run[k].Ingest? ==> run[k].what.ts > t
    ensures Arrivals(run, t) == 0
    decreases |run|
  {
    if run != [] {
      assert forall k :: 0 <= k < |run[1..]| ==> run[1..][k] == run[k + 1];
      NoArrivals(run[1..], t);
    }
  }

  /** A request stamps its events with the second in which it began. When no request
      commits more than `late` seconds after its stamp, arrivals can hold an event up
      only until `late` seconds past its own: from then on the passes that its backlog
      fills are enough. `clock` is the time of each step. */
  lemma OnTime(s: State, run: seq<Action>, clock: seq<int>, late: nat, i: EventId)
    requires Runs(s, run) && i in Unchecked(s.events) && |clock| == |run|
    requires forall k :: 0 <= k < |run| && run[k].Ingest? ==> run[k].what.ts >= clock[k] - late
    requires forall k :: 0 <= k < |run| ==> clock[k] > s.events[i].ts + late
    requires TI_BATCH * Passes(run) >= |Ahead(Unchecked(s.events), i)|
    ensures i in After(s, run).events && After(s, run).events[i].checked
  {
    hide Runs, After, Unchecked, Ahead;
    WaitsIsUnchecked(s.events, i);
    NoArrivals(run, s.events[i].ts);
    TurnComes(s, run, i);
  }

  // ---------------------------------------------------------------------
  // Whatever the ties
  // ---------------------------------------------------------------------

  /** The same arrivals, passes and other steps; the passes may have broken ties
      differently. */
  ghost predicate SameButTies(run: seq<Action>, other: seq<Action>) {
    |run| == |other| && forall k :: 0 <= k < |run| ==> run[k] == other[k] || (run[k].Pass? && other[k].Pass?)
  }

  /** Before every pass of the run a whole batch is there. */
  predicate Crowded(n: nat, run: seq<Action>, t: int)
    decreases |run|
  {
    run == [] || ((run[0].Pass? ==> n >= 500) && Crowded(Next(n, run[0], t), run[1..], t))
  }

  lemma {:induction false} TiesDoNotCount(n: nat, run: seq<Action>, other: seq<Action>, t: int)
    requires SameButTies(run, other)
    ensures Drained(n, other, t) == Drained(n, run, t) && Crowded(n, other, t) == Crowded(n, run, t)
    decreases |run|
  {
    if run != [] {
      assert run[0] == other[0] || (run[0].Pass? && other[0].Pass?);
      assert forall k :: 0 <= k < |run[1..]| ==> run[1..][k] == run[k + 1] && other[1..][k] == other[k + 1];
      TiesDoNotCount(Next(n, run[0], t), run[1..], other[1..], t);
    }
  }

  /** With a whole batch of older events waiting before every pass, it goes on waiting. */
  lemma {:induction false} CrowdedWaits(s: State, run: seq<Action>, i: EventId)
    requires Runs(s, run) && i in Unchecked(s.events)
    requires Crowded(|Older(Unchecked(s.events), i)|, run, s.events[i].ts - 1)
    ensures i in Unchecked(After(s, run).events) && After(s, run).events[i].ts == s.events[i].ts
    decreases |run|
  {
    hide Unchecked, NotNewer, FirstBy, Step, Enabled;
    WaitsIsUnchecked(s.events, i);
    if run != [] {
      var a, t := run[0], Step(s, run[0]);
      StillOrDone(s, a, i);
      if a.Pass? && i in a.rows {
        PassLeaves(s, a);
        TakenAfterOlder(Unchecked(s.events), a.rows, TI_BATCH, i);
      }
      WaitsOn(s, a, a, i);
      CrowdedWaits(t, run[1..], i);
    }
  }

  /** States in which the same steps other than passes are possible. */
  ghost predicate Alike(s: State, t: State) {
    s.events.Keys == t.events.Keys && s.indicators.Keys == t.indicators.Keys
  }

  /** The same step, or the pass over the given rows, on a state alike. */
  lemma StepAlike(s: State, a: Action, t: State, rows: seq<EventId>) returns (b: Action)
    requires Enabled(s, a) && Alike(s, t)
    requires a.Pass? ==> FirstBy(rows, Unchecked(t.events), TI_BATCH)
    ensures Enabled(t, b) && Alike(Step(s, a), Step(t, b))
    ensures if a.Pass? then b.Pass? && b.rows == rows else b == a
  {
    if a.Pass? {
      b := PassOver(t, rows, a.now);
      PassKeepsKeys(s, a);
      PassKeepsKeys(t, b);
    } else {
      b := a;
    }
  }

  lemma PassKeepsKeys(s: State, a: Action)
    requires a.Pass?
    ensures Step(s, a).events.Keys == s.events.Keys && Step(s, a).indicators.Keys == s.indicators.Keys
  {
    hide Mentions, ToAlert, Dedup;
  }

  lemma RunOfFirst(s: State, a: Action, rest: seq<Action>)
    requires Enabled(s, a) && Runs(Step(s, a), rest)
    ensures Runs(s, [a] + rest) && After(s, [a] + rest) == After(Step(s, a), rest)
  {
    hide Step, Enabled;
    assert ([a] + rest)[1..] == rest;
  }

  lemma Joined(run: seq<Action>, t: State, b: Action, rest: seq<Action>) returns (other: seq<Action>)
    requires run != [] && (run[0] == b || (run[0].Pass? && b.Pass?)) && SameButTies(run[1..], rest)
    requires Enabled(t, b) && Runs(Step(t, b), rest)
    ensures SameButTies(run, other) && Runs(t, other) && After(t, other) == After(Step(t, b), rest)
  {
    hide Step, Enabled;
    RunOfFirst(t, b, rest);
    other := [b] + rest;
    forall k | 0 < k < |run| ensures run[k] == other[k] || (run[k].Pass? && other[k].Pass?) {
      assert run[1..][k - 1] == run[k];
    }
  }

  /** Until the number is down to nothing, ties may have been broken against an event. */
  lemma {:induction false} MayWait(s: State, run: seq<Action>, t: State, i: EventId) returns (other: seq<Action>)
    requires Runs(s, run) && Alike(s, t) && i in Unchecked(t.events)
    requires !Drained(|Ahead(Unchecked(t.events), i)|, run, t.events[i].ts)
    ensures SameButTies(run, other) && Runs(t, other) && i in Unchecked(After(t, other).events)
    decreases |run|
  {
    if run == [] {
      other := [];
    } else {
      hide Unchecked, Ahead, FirstBy, Step, Enabled, Runs, After, SameButTies, Alike;
      WaitsIsUnchecked(t.events, i);
      FirstStep(s, run);
      var rows := [];
      if run[0].Pass? { rows := Spared(Unchecked(t.events), i, TI_BATCH); }
      var b := StepAlike(s, run[0], t, rows);
      StillOrDone(t, b, i);
      WaitsOn(t, b, run[0], i);
      var rest := MayWait(Step(s, run[0]), run[1..], Step(t, b), i);
      other := Joined(run, t, b, rest);
    }
  }

  lemma FirstStep(s: State, run: seq<Action>)
    requires run != [] && Runs(s, run)
    ensures Enabled(s, run[0]) && Runs(Step(s, run[0]), run[1..])
  {
    hide Step, Enabled;
  }

  lemma {:induction false} SomeRun(s: State, run: seq<Action>, t: State) returns (other: seq<Action>)
    requires Runs(s, run) && Alike(s, t)
    ensures SameButTies(run, other) && Runs(t, other)
    decreases |run|
  {
    if run == [] {
      other := [];
    } else {
      hide Unchecked, FirstBy, Step, Enabled, Runs, SameButTies, Alike;
      FirstStep(s, run);
      var rows := FirstByExists(Unchecked(t.events), TI_BATCH);
      var b := StepAlike(s, run[0], t, rows);
      var rest := SomeRun(Step(s, run[0]), run[1..], Step(t, b));
      other := Joined(run, t, b, rest);
    }
  }

  /** Once a pass finds less than a batch of older events, ties may have been broken in
      its favour. */
  lemma {:induction false} MayBeExamined(s: State, run: seq<Action>, t: State, i: EventId) returns (other: seq<Action>)
    requires Runs(s, run) && Alike(s, t) && i in Unchecked(t.events)
    requires !Crowded(|Older(Unchecked(t.events), i)|, run, t.events[i].ts - 1)
    ensures SameButTies(run, other) && Runs(t, other) && i !in Unchecked(After(t, other).events)
    decreases |run|
  {
    hide Unchecked, Older, FirstBy, Step, Enabled, Runs, After, SameButTies, Alike;
    WaitsIsUnchecked(t.events, i);
    NotEmpty(|Older(Unchecked(t.events), i)|, run, t.events[i].ts - 1);
    FirstStep(s, run);
    var rows := [];
    if run[0].Pass? {
      rows := FavouredIfPossible(Unchecked(t.events), i, TI_BATCH);
    }
    var b := StepAlike(s, run[0], t, rows);
    StillOrDone(t, b, i);
    var rest;
    if Step(t, b).events[i].checked {
      rest := SomeRun(Step(s, run[0]), run[1..], Step(t, b));
      StaysExamined(Step(t, b), rest, i);
      WaitsIsUnchecked(After(Step(t, b), rest).events, i);
    } else {
      WaitsOn(t, b, run[0], i);
      rest := MayBeExamined(Step(s, run[0]), run[1..], Step(t, b), i);
    }
    other := Joined(run, t, b, rest);
  }

  lemma NotEmpty(n: nat, run: seq<Action>, t: int)
    requires !Crowded(n, run, t)
    ensures run != []
  {
  }

  lemma FavouredIfPossible(w: Waiting, i: EventId, limit: nat) returns (rows: seq<EventId>)
    requires i in w
    ensures FirstBy(rows, w, limit) && (|Older(w, i)| < limit ==> i in rows)
  {
    hide FirstBy, Older;
    if |Older(w, i)| < limit {
      rows := Favoured(w, i, limit);
    } else {
      rows := FirstByExists(w, limit);
    }
  }

  /** The exact condition, in arrivals and passes alone: a waiting event has surely been
      examined, whichever of its equals the passes took first, if and only if at some
      point the number of those not newer was down to nothing ... */
  lemma ExaminedWhateverTies(s: State, run: seq<Action>, i: EventId)
    requires Runs(s, run) && i in Unchecked(s.events)
    ensures Drained(|Ahead(Unchecked(s.events), i)|, run, s.events[i].ts)
       <==> forall other :: SameButTies(run, other) && Runs(s, other) ==> i !in Unchecked(After(s, other).events)
  {
    hide Unchecked, NotNewer, Runs, After, SameButTies, Drained;
    WaitsIsUnchecked(s.events, i);
    var n, t := |Ahead(Unchecked(s.events), i)|, s.events[i].ts;
    if Drained(n, run, t) {
      forall other | SameButTies(run, other) && Runs(s, other) ensures i !in Unchecked(After(s, other).events) {
        TiesDoNotCount(n, run, other, t);
        DrainedExamines(s, other, i);
        WaitsIsUnchecked(After(s, other).events, i);
      }
    } else {
      var other := MayWait(s, run, s, i);
    }
  }

  /** ... and is surely waiting still if and only if before every pass at least a whole
      batch of older events was there. In between the ties decide. */
  lemma WaitsWhateverTies(s: State, run: seq<Action>, i: EventId)
    requires Runs(s, run) && i in Unchecked(s.events)
    ensures Crowded(|Older(Unchecked(s.events), i)|, run, s.events[i].ts - 1)
       <==> forall other :: SameButTies(run, other) && Runs(s, other) ==> i in Unchecked(After(s, other).events)
  {
    hide Unchecked, NotNewer, Runs, After, SameButTies, Crowded;
    WaitsIsUnchecked(s.events, i);
    var n, t := |Older(Unchecked(s.events), i)|, s.events[i].ts - 1;
    if Crowded(n, run, t) {
      forall other | SameButTies(run, other) && Runs(s, other) ensures i in Unchecked(After(s, other).events) {
        TiesDoNotCount(n, run, other, t);
        CrowdedWaits(s, other, i);
      }
    } else {
      var other := MayBeExamined(s, run, s, i);
    }
  }

  /** No waiting event, now or later in the run, has the very timestamp of this one. */
  ghost predicate NoTie(w: Waiting, run: seq<Action>, i: EventId)
    requires i in w
  {
    && (forall j :: j in w && j != i ==> w[j] != w[i])
    && (forall k :: 0 <= k < |run| && run[k].Ingest? ==> run[k].what.ts != w[i])
  }

  lemma {:induction false} OneOrTheOther(n: nat, run: seq<Action>, t: int)
    requires forall k :: 0 <= k < |run| && run[k].Ingest? ==> run[k].what.ts != t
    ensures Drained(n + 1, run, t) != Crowded(n, run, t - 1)
    decreases |run|
  {
    if run != [] {
      assert forall k :: 0 <= k < |run[1..]| ==> run[1..][k] == run[k + 1];
      if !(run[0].Pass? && n < TI_BATCH) {
        OneOrTheOther(Next(n, run[0], t - 1), run[1..], t);
      }
    }
  }

  /** Without ties nothing is in between: the event is waiting if and only if the number
      of those not newer never was down to nothing. */
  lemma WaitsIff(s: State, run: seq<Action>, i: EventId)
    requires Runs(s, run) && i in Unchecked(s.events) && NoTie(Unchecked(s.events), run, i)
    ensures i in Unchecked(After(s, run).events) <==> !Drained(|Ahead(Unchecked(s.events), i)|, run, s.events[i].ts)
  {
    hide Unchecked, Runs, After, Drained, Crowded;
    WaitsIsUnchecked(s.events, i);
    var w, t := Unchecked(s.events), s.events[i].ts;
    assert Ahead(w, i) == Older(w, i) + {i};
    OneOrTheOther(|Older(w, i)|, run, t);
    if Drained(|Ahead(w, i)|, run, t) {
      DrainedExamines(s, run, i);
      WaitsIsUnchecked(After(s, run).events, i);
    } else {
      CrowdedWaits(s, run, i);
    }
  }

  // ---------------------------------------------------------------------
  // Starvation
  // ---------------------------------------------------------------------

  lemma FreshId(ids: set<EventId>) returns (id: EventId)
    ensures id !in ids
  {
    id := seq(Longer(ids), _ => 'x');
  }

  /** More than the length of any of them. */
  ghost function Longer(ids: set<string>): (n: nat)
    ensures forall id :: id in ids ==> |id| < n
  {
    if ids == {} then 0
    else
      var id :| id in ids;
      var n := Longer(ids - {id});
      if |id| < n then n else |id| + 1
  }

  lemma {:induction false} RunsConcat(s: State, a: seq<Action>, b: seq<Action>)
    requires Runs(s, a) && Runs(After(s, a), b)
    ensures Runs(s, a + b) && After(s, a + b) == After(After(s, a), b) && Passes(a + b) == Passes(a) + Passes(b)
    ensures forall n: nat, t :: Crowded(n, a, t) && Crowded(Left(n, a, t), b, t) ==> Crowded(n, a + b, t)
    decreases |a|
  {
    hide Step, Enabled, Next;
    if a == [] {
      assert a + b == b;
    } else {
      assert (a + b)[0] == a[0] && (a + b)[1..] == a[1..] + b;
      RunsConcat(Step(s, a[0]), a[1..], b);
    }
  }

  /** Events of an earlier second, as many as one likes. */
  lemma {:induction false} Crowd(s: State, t: int, n: nat) returns (run: seq<Action>)
    ensures Runs(s, run) && Passes(run) == 0
    ensures forall m: nat :: Left(m, run, t) == m + n && Crowded(m, run, t)
    decreases n
  {
    if n == 0 {
      run := [];
    } else {
      var id := FreshId(s.events.Keys);
      var a := Ingest(id, Event(t, "", "", "", "", false));
      var rest := Crowd(Step(s, a), t, n - 1);
      RunOfFirst(s, a, rest);
      run := [a] + rest;
      assert run[1..] == rest;
      forall m: nat ensures Left(m, run, t) == m + n && Crowded(m, run, t) {
        assert Next(m, a, t) == m + 1;
        assert Left(m + 1, rest, t) == m + n && Crowded(m + 1, rest, t);
      }
    }
  }

  /** The pass over given rows. */
  lemma PassOver(s: State, rows: seq<EventId>, now: real) returns (a: Action)
    requires FirstBy(rows, Unchecked(s.events), TI_BATCH)
    ensures a.Pass? && a.rows == rows && Enabled(s, a)
  {
    hide FirstBy;
    var values := ToSet(Mentions(s.events, rows));
    var hits := map v | v in values && (exists id :: Matches(s.indicators, id, v)) :: Hit(s.indicators, v);
    a := Pass(rows, hits, now);
  }

  ghost function Hit(indicators: Lifecycle.Indicators, v: string): (id: Lifecycle.IndicatorId)
    requires exists id :: Matches(indicators, id, v)
    ensures Matches(indicators, id, v)
  {
    var id :| Matches(indicators, id, v);
    id
  }

  /** So an event can starve: from any state in which it waits, for any number of passes
      there is a run with that many after which it is waiting still. It takes a batch of
      events of an earlier second before every pass: requests that read the clock before
      its own did and commit only now, or come over a clock that lags. */
  lemma {:induction false} Starves(s: State, i: EventId, n: nat) returns (run: seq<Action>)
    requires i in Unchecked(s.events)
    ensures Runs(s, run) && Passes(run) == n && i in Unchecked(After(s, run).events)
    ensures i in s.events && Crowded(|Older(Unchecked(s.events), i)|, run, s.events[i].ts - 1)
  {
    hide Unchecked, Step, Enabled, FirstBy;
    WaitsIsUnchecked(s.events, i);
    if n == 0 {
      run := [];
    } else {
      hide Runs, After, Crowded, Left, Passes;
      var t := s.events[i].ts - 1;
      var before := Starves(s, i, n - 1);
      var crowd := Crowd(After(s, before), t, TI_BATCH);
      var u := After(After(s, before), crowd);
      var rows := FirstByExists(Unchecked(u.events), TI_BATCH);
      var a := PassOver(u, rows, 0.0);
      OnePass(u, a, t);
      RunsConcat(After(s, before), crowd, [a]);
      RunsConcat(s, before, crowd + [a]);
      run := before + (crowd + [a]);
      CrowdedWaits(s, run, i);
    }
  }

  lemma OnePass(s: State, a: Action, t: int)
    requires Enabled(s, a) && a.Pass?
    ensures Runs(s, [a]) && Passes([a]) == 1
    ensures forall n: nat :: n >= TI_BATCH ==> Crowded(n, [a], t)
  {
    hide Step, Enabled;
    assert [a][1..] == [];
  }
}
