/** The audit worker behind its lease: `_worker` begins a drain only after an acquire of
    the lease "audit-sink" that returned True, and there is one such worker a process.
    It never releases that lease. */
module GatedDrain {
  import A = AuditSink
  import opened Collections
  import L = LeaderLease

  type Pid = A.Pid

  /** `asking` are the workers whose acquire has not returned; `told` has the clock
      reading of the acquire that last returned True, since the worker began none other;
      `cleared` are those told so whose drain has not begun. */
  datatype State = State(sink: A.State, lease: L.State, asking: map<Pid, nat>, told: map<Pid, int>, cleared: set<Pid>)

  datatype Action =
    | Tick(secs: nat)
    | Acquire(p: Pid, id: nat, reading: int)   // the acquire reads its clock
    | Update(p: Pid)                           // the acquire runs its UPDATE and returns
    | Fail(p: Pid)                             // the acquire raises
    | Sink(a: A.Action)                        // a commit, or a step of a drain

  function Initial(clock: int): State {
    State(A.Initial(), L.Initial(clock), map[], map[], {})
  }

  /** `nodes` are the holder names of the processes. */
  predicate Enabled(c: L.Config, nodes: seq<string>, s: State, a: Action) {
    match a
    case Tick(secs) => true
    case Acquire(p, id, r) =>
      p < |nodes| && p !in s.asking && s.sink.At(p).Idle? && L.Enabled(c, s.lease, L.ReadClock(id, nodes[p], r))
    case Update(p) => p in s.asking && s.asking[p] in s.lease.calls
    case Fail(p) => p in s.asking && s.asking[p] in s.lease.calls
    case Sink(a) => A.Enabled(s.sink, a) && (a.ReadCursor? ==> a.p in s.cleared)
  }

  function Step(c: L.Config, nodes: seq<string>, s: State, a: Action): State
    requires Enabled(c, nodes, s, a)
  {
    match a
    case Tick(secs) => s.(lease := L.Step(c, s.lease, L.Tick(secs)))
    case Acquire(p, id, r) =>
      s.(lease := L.Step(c, s.lease, L.ReadClock(id, nodes[p], r)), asking := s.asking[p := id],
         told := s.told - {p}, cleared := s.cleared - {p})
    case Update(p) =>
      var id := s.asking[p];
      var t := s.(lease := L.Step(c, s.lease, L.Update(id)), asking := s.asking - {p});
      if !L.Wins(s.lease, id) then t
      else t.(told := s.told[p := s.lease.calls[id].reading], cleared := s.cleared + {p})
    case Fail(p) => s.(lease := L.Step(c, s.lease, L.Crash(s.asking[p])), asking := s.asking - {p})
    case Sink(a) => s.(sink := A.Step(s.sink, a), cleared := if a.ReadCursor? then s.cleared - {a.p} else s.cleared)
  }

  predicate Runs(c: L.Config, nodes: seq<string>, s: State, run: seq<Action>)
    decreases |run|
  {
    run == [] || (Enabled(c, nodes, s, run[0]) && Runs(c, nodes, Step(c, nodes, s, run[0]), run[1..]))
  }

  function After(c: L.Config, nodes: seq<string>, s: State, run: seq<Action>): State
    requires Runs(c, nodes, s, run)
    decreases |run|
  {
    if run == [] then s else After(c, nodes, Step(c, nodes, s, run[0]), run[1..])
  }

  // ---------------------------------------------------------------------
  // A drain within its lease is alone
  // ---------------------------------------------------------------------

  /** What the worker of a process was told is what the lease records of it. */
  ghost predicate ToldOk(nodes: seq<string>, s: State, p: Pid) {
    && (p in s.told ==> p < |nodes| && p !in s.asking && nodes[p] in s.lease.held && s.lease.held[nodes[p]] == s.told[p])
    && (p in s.asking ==> p < |nodes| && s.asking[p] in s.lease.calls && s.lease.calls[s.asking[p]].holder == nodes[p])
    && (p in s.cleared || !s.sink.At(p).Idle? ==> p in s.told)
  }

  ghost predicate Inv(c: L.Config, nodes: seq<string>, s: State) {
    && Distinct(nodes) && L.Inv(c, s.lease)
    && (forall p, q :: p in s.asking && q in s.asking && s.asking[p] == s.asking[q] ==> p == q)
    && forall p :: ToldOk(nodes, s, p)
  }

  /** Every drain under way is still within the lease it began under, less the skew. */
  ghost predicate Timely(c: L.Config, s: State) {
    forall p :: p in s.sink.drainers && !s.sink.drainers[p].Idle? ==>
      p in s.told && s.lease.clock <= s.told[p] + c.ttl - c.skew
  }

  ghost predicate TimelyRun(c: L.Config, nodes: seq<string>, s: State, run: seq<Action>)
    requires Runs(c, nodes, s, run)
    decreases |run|
  {
    Timely(c, s) && (run != [] ==> TimelyRun(c, nodes, Step(c, nodes, s, run[0]), run[1..]))
  }

  lemma LeaseKeepsInv(c: L.Config, nodes: seq<string>, s: State, a: Action)
    requires Enabled(c, nodes, s, a)
    requires L.Inv(c, s.lease)
    ensures L.Inv(c, Step(c, nodes, s, a).lease)
  {
    hide L.Inv, L.Step, A.Step, A.Enabled;
    match a
    case Tick(secs) => L.InvStep(c, s.lease, L.Tick(secs));
    case Acquire(p, id, r) => L.InvStep(c, s.lease, L.ReadClock(id, nodes[p], r));
    case Update(p) => L.InvStep(c, s.lease, L.Update(s.asking[p]));
    case Fail(p) => L.InvStep(c, s.lease, L.Crash(s.asking[p]));
    case Sink(_) =>
  }

  lemma SinkIdle(s: A.State, a: A.Action, p: Pid)
    requires A.Enabled(s, a) && s.At(p).Idle? && !(a.ReadCursor? && a.p == p)
    ensures A.Step(s, a).At(p).Idle?
  {
  }

  lemma InvStep(c: L.Config, nodes: seq<string>, s: State, a: Action)
    requires Inv(c, nodes, s) && Enabled(c, nodes, s, a)
    ensures Inv(c, nodes, Step(c, nodes, s, a))
  {
    hide L.Inv, A.Step, A.Enabled;
    var t := Step(c, nodes, s, a);
    LeaseKeepsInv(c, nodes, s, a);
    forall p ensures ToldOk(nodes, t, p) {
      assert ToldOk(nodes, s, p);
      if a.Sink? {
        if s.sink.At(p).Idle? && !(a.a.ReadCursor? && a.a.p == p) { SinkIdle(s.sink, a.a, p); }
      } else if !a.Tick? {
        assert ToldOk(nodes, s, a.p);
      }
    }
    forall p, q | p in t.asking && q in t.asking && t.asking[p] == t.asking[q] ensures p == q {
      assert ToldOk(nodes, s, p) && ToldOk(nodes, s, q);
    }
  }

  /** Two drains within their leases are one: the row has one holder. */
  lemma TimelyIsLone(c: L.Config, nodes: seq<string>, s: State)
    requires Inv(c, nodes, s) && Timely(c, s)
    ensures A.Lone(s.sink)
  {
    forall p, q | p in s.sink.drainers && q in s.sink.drainers && !s.sink.drainers[p].Idle? && !s.sink.drainers[q].Idle?
      ensures p == q
    {
      assert ToldOk(nodes, s, p) && ToldOk(nodes, s, q);
    }
  }

  lemma AdvanceStep(c: L.Config, nodes: seq<string>, s: State, a: Action)
    requires Inv(c, nodes, s) && Timely(c, s) && A.AllUpToDate(s.sink) && Enabled(c, nodes, s, a)
    ensures A.AllUpToDate(Step(c, nodes, s, a).sink) && Step(c, nodes, s, a).sink.cursor >= s.sink.cursor
  {
    hide A.AllUpToDate, A.Step, A.Enabled, A.Lone, Timely, Inv;
    if a.Sink? {
      TimelyIsLone(c, nodes, s);
      A.LoneStep(s.sink, a.a);
    }
  }

  lemma {:induction false} AdvanceRun(c: L.Config, nodes: seq<string>, s: State, run: seq<Action>)
    requires Inv(c, nodes, s) && A.AllUpToDate(s.sink) && Runs(c, nodes, s, run) && TimelyRun(c, nodes, s, run)
    ensures var t := After(c, nodes, s, run);
      Inv(c, nodes, t) && A.AllUpToDate(t.sink) && t.sink.cursor >= s.sink.cursor
    decreases |run|
  {
    if run != [] {
      hide Inv, Step, Enabled, A.AllUpToDate, Timely;
      InvStep(c, nodes, s, run[0]);
      AdvanceStep(c, nodes, s, run[0]);
      AdvanceRun(c, nodes, Step(c, nodes, s, run[0]), run[1..]);
    }
  }

  /** The cursor only advances, from any point of the run to any later one, when each
      drain ends within the lease it began under: over every run of any number of
      processes, however late their acquires run their UPDATE. */
  lemma GateAdvances(c: L.Config, nodes: seq<string>, clock: int, run: seq<Action>, more: seq<Action>)
    requires Distinct(nodes)
    requires Runs(c, nodes, Initial(clock), run) && TimelyRun(c, nodes, Initial(clock), run)
    requires var s := After(c, nodes, Initial(clock), run); Runs(c, nodes, s, more) && TimelyRun(c, nodes, s, more)
    ensures var s := After(c, nodes, Initial(clock), run); After(c, nodes, s, more).sink.cursor >= s.sink.cursor
  {
    hide Runs, After, TimelyRun;
    AdvanceRun(c, nodes, Initial(clock), run);
    AdvanceRun(c, nodes, After(c, nodes, Initial(clock), run), more);
  }

  // ---------------------------------------------------------------------
  // A drain that outlasts its lease
  // ---------------------------------------------------------------------

  function Lifted(run: seq<A.Action>): seq<Action> {
    if run == [] then [] else [Sink(run[0])] + Lifted(run[1..])
  }

  /** Steps of drains, each begun by a worker cleared for it, among themselves. */
  lemma {:induction false} Lift(c: L.Config, nodes: seq<string>, s: State, run: seq<A.Action>)
    requires A.Runs(s.sink, run)
    requires forall k :: 0 <= k < |run| && run[k].ReadCursor? ==> run[k].p in s.cleared
    requires forall j, k :: 0 <= j < k < |run| && run[j].ReadCursor? ==> run[j] != run[k]
    ensures Runs(c, nodes, s, Lifted(run))
    ensures var t := After(c, nodes, s, Lifted(run)); t.(cleared := {}) == s.(sink := A.After(s.sink, run), cleared := {})
    decreases |run|
  {
    if run != [] {
      hide A.Enabled, A.Step;
      assert forall k :: 0 <= k < |run[1..]| ==> run[1..][k] == run[k + 1];
      Lift(c, nodes, Step(c, nodes, s, Sink(run[0])), run[1..]);
      assert Lifted(run)[0] == Sink(run[0]) && Lifted(run)[1..] == Lifted(run[1..]);
    }
  }

  lemma {:induction false} RunsConcat(c: L.Config, nodes: seq<string>, s: State, a: seq<Action>, b: seq<Action>)
    requires Runs(c, nodes, s, a) && Runs(c, nodes, After(c, nodes, s, a), b)
    ensures Runs(c, nodes, s, a + b) && After(c, nodes, s, a + b) == After(c, nodes, After(c, nodes, s, a), b)
    decreases |a|
  {
    hide Step, Enabled;
    if a == [] {
      assert a + b == b;
    } else {
      assert (a + b)[0] == a[0] && (a + b)[1..] == a[1..] + b;
      RunsConcat(c, nodes, Step(c, nodes, s, a[0]), a[1..], b);
    }
  }

  /** A worker that finds the lease free or expired: it is cleared for one drain. */
  lemma Cleared(c: L.Config, nodes: seq<string>, s: State, p: Pid, id: nat, wait: nat)
    requires p < |nodes| && nodes[p] != "" && nodes[p] !in s.lease.read && p !in s.asking && s.sink.At(p).Idle?
    requires id !in s.lease.calls && s.lease.row.expiresAt < s.lease.clock + wait
    ensures var run := [Tick(wait), Acquire(p, id, s.lease.clock + wait), Update(p)];
      && Runs(c, nodes, s, run)
      && var t := After(c, nodes, s, run);
         && t.sink == s.sink && p in t.cleared && t.asking == s.asking && t.lease.calls == s.lease.calls
         && t.lease.clock == s.lease.clock + wait && t.lease.row == L.Row(nodes[p], s.lease.clock + wait + c.ttl)
         && t.lease.read == s.lease.read[nodes[p] := s.lease.clock + wait]
  {
    hide Runs, After;
    var now := s.lease.clock + wait;
    var s1 := Step(c, nodes, s, Tick(wait));
    var s2 := Step(c, nodes, s1, Acquire(p, id, now));
    assert s2.lease.calls[id] == L.Call(nodes[p], now);
    var s3 := Step(c, nodes, s2, Update(p));
    assert s3.lease.calls == s.lease.calls && s3.asking == s.asking;
    ThreeSteps(c, nodes, s, Tick(wait), Acquire(p, id, now), Update(p));
  }

  lemma ThreeSteps(c: L.Config, nodes: seq<string>, s: State, a1: Action, a2: Action, a3: Action)
    requires Enabled(c, nodes, s, a1) && Enabled(c, nodes, Step(c, nodes, s, a1), a2)
    requires Enabled(c, nodes, Step(c, nodes, Step(c, nodes, s, a1), a2), a3)
    ensures Runs(c, nodes, s, [a1, a2, a3])
    ensures After(c, nodes, s, [a1, a2, a3]) == Step(c, nodes, Step(c, nodes, Step(c, nodes, s, a1), a2), a3)
  {
    hide Enabled, Step;
    var s1 := Step(c, nodes, s, a1);
    var s2 := Step(c, nodes, s1, a2);
    var s3 := Step(c, nodes, s2, a3);
    assert Runs(c, nodes, s3, []) && After(c, nodes, s3, []) == s3;
    First(c, nodes, s2, a3, []);
    First(c, nodes, s1, a2, [a3]);
    First(c, nodes, s, a1, [a2, a3]);
  }

  lemma First(c: L.Config, nodes: seq<string>, s: State, a: Action, rest: seq<Action>)
    requires Enabled(c, nodes, s, a) && Runs(c, nodes, Step(c, nodes, s, a), rest)
    ensures Runs(c, nodes, s, [a] + rest) && After(c, nodes, s, [a] + rest) == After(c, nodes, Step(c, nodes, s, a), rest)
  {
    hide Enabled, Step;
    assert ([a] + rest)[1..] == rest;
  }

  /** The condition is needed: behind the gate too, a drain that outlasts its lease may
      write an older position over a newer one. */
  lemma OutlastingMovesBack(ttl: nat)
    ensures exists run: seq<Action>, a ::
      var c, nodes := L.Config(ttl, 0), ["a", "b"];
      && Runs(c, nodes, Initial(1), run) && Enabled(c, nodes, After(c, nodes, Initial(1), run), a)
      && Step(c, nodes, After(c, nodes, Initial(1), run), a).sink.cursor < After(c, nodes, Initial(1), run).sink.cursor
  {
    hide *;
    var c, nodes := L.Config(ttl, 0), ["a", "b"];
    var run := Outlasting(c, nodes);
    A.LateWrite();
    var s := After(c, nodes, Initial(1), run);
    SinkStep(c, nodes, s, A.WriteCursor(0));
    assert Runs(c, nodes, Initial(1), run) && Enabled(c, nodes, s, Sink(A.WriteCursor(0)));
  }

  lemma SinkStep(c: L.Config, nodes: seq<string>, s: State, a: A.Action)
    requires A.Enabled(s.sink, a) && !a.ReadCursor?
    ensures Enabled(c, nodes, s, Sink(a)) && Step(c, nodes, s, Sink(a)).sink == A.Step(s.sink, a)
  {
  }

  lemma Outlasting(c: L.Config, nodes: seq<string>) returns (run: seq<Action>)
    requires nodes == ["a", "b"]
    ensures Runs(c, nodes, Initial(1), run)
    ensures After(c, nodes, Initial(1), run).sink == A.State([1, 2], 2, map[0 := A.Stopped(0, 1), 1 := A.Idle], [1, 1, 2])
  {
    hide Runs, After, A.Runs, A.After, Lifted;
    var slow := [A.Commit(1), A.ReadCursor(0), A.Fetch(0), A.PostOk(0), A.Finish(0)];
    var fast, done := [A.Commit(2), A.ReadCursor(1), A.Fetch(1)], [A.PostOk(1), A.PostOk(1), A.Finish(1), A.WriteCursor(1)];
    Cleared(c, nodes, Initial(1), 0, 0, 0);
    run := [Tick(0), Acquire(0, 0, 1), Update(0)];
    var s1 := After(c, nodes, Initial(1), run);
    A.SlowDrainer();
    Lift(c, nodes, s1, slow);
    RunsConcat(c, nodes, Initial(1), run, Lifted(slow));
    run := run + Lifted(slow);
    var s2 := After(c, nodes, s1, Lifted(slow));
    assert s2.lease == s2.(cleared := {}).lease && s2.sink == s2.(cleared := {}).sink && s2.asking == s2.(cleared := {}).asking;
    Cleared(c, nodes, s2, 1, 1, c.ttl + 1);
    var again := [Tick(c.ttl + 1), Acquire(1, 1, s2.lease.clock + (c.ttl + 1)), Update(1)];
    RunsConcat(c, nodes, Initial(1), run, again);
    run := run + again;
    var s3 := After(c, nodes, s2, again);
    A.FastDrainerStarts();
    Lift(c, nodes, s3, fast);
    RunsConcat(c, nodes, Initial(1), run, Lifted(fast));
    run := run + Lifted(fast);
    var s4 := After(c, nodes, s3, Lifted(fast));
    assert s4.sink == s4.(cleared := {}).sink;
    A.FastDrainerEnds();
    Lift(c, nodes, s4, done);
    RunsConcat(c, nodes, Initial(1), run, Lifted(done));
    run := run + Lifted(done);
    var s5 := After(c, nodes, s4, Lifted(done));
    assert s5.sink == s5.(cleared := {}).sink;
  }
}
