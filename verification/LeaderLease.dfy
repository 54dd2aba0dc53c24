/** Leader election by a lease row: a compare-and-set UPDATE whose clock was read
    beforehand, by nodes whose clocks may disagree. */
module LeaderLease {
  import opened Collections

  datatype Row = Row(holder: string, expiresAt: int)

  const FREE := Row("", 0)

  /** The conditional UPDATE: ours already, or expired. */
  predicate Claimable(row: Row, holder: string, now: int) {
    row.holder == holder || row.expiresAt < now
  }

  function Claimed(row: Row, holder: string, now: int, ttl: nat): Row {
    if Claimable(row, holder, now) then Row(holder, now + ttl) else row
  }

  function Released(row: Row, holder: string): Row {
    if row.holder == holder then FREE else row
  }

  predicate Leads(row: Row, holder: string, now: int) {
    row.holder == holder && row.expiresAt >= now
  }

  datatype LeaseStatus = LeaseStatus(held: bool, holder: string, expiresIn: nat)

  /** The `leader_lease` table. The clock reading is a parameter. */
  class LeaseTable {
    var rows: map<string, Row>
    const electionOn: bool

    constructor (electionOn: bool)
      ensures rows == map[] && this.electionOn == electionOn
    {
      this.electionOn := electionOn;
      rows := map[];
    }

    function At(name: string): Row
      reads this
    {
      if name in rows then rows[name] else FREE
    }

    method Acquire(name: string, ttl: nat, holder: string, now: int) returns (won: bool)
      requires holder != ""
      modifies this`rows
      ensures !electionOn ==> won && rows == old(rows)
      ensures electionOn ==> won == Claimable(old(At(name)), holder, now)
      ensures electionOn ==> rows == old(rows)[name := Claimed(old(At(name)), holder, now, ttl)]
      ensures electionOn ==> (won <==> if name in old(rows) then old(rows)[name].holder == holder || old(rows)[name].expiresAt < now
                                       else 0 < now)
      ensures electionOn && won ==> rows == old(rows)[name := Row(holder, now + ttl)]
      ensures electionOn && !won ==> rows == old(rows)[name := if name in old(rows) then old(rows)[name] else Row("", 0)]
    {
      if !electionOn {
        return true;
      }
      if name !in rows {
        rows := rows[name := FREE];
      }
      won := rows[name].holder == holder || rows[name].expiresAt < now;
      if won {
        rows := rows[name := Row(holder, now + ttl)];
      }
    }

    method IsLeader(name: string, holder: string, now: int) returns (yes: bool)
      requires holder != ""
      ensures yes <==> !electionOn || (name in rows && Leads(rows[name], holder, now))
      ensures yes <==> !electionOn || (name in rows && rows[name].holder == holder && now <= rows[name].expiresAt)
    {
      if !electionOn {
        return true;
      }
      yes := name in rows && rows[name].holder == holder && rows[name].expiresAt >= now;
    }

    method Release(name: string, holder: string)
      requires holder != ""
      modifies this`rows
      ensures rows.Keys == old(rows).Keys
      ensures forall n :: n in rows ==> rows[n] == if n == name then Released(old(rows)[n], holder) else old(rows)[n]
      ensures name in rows && old(rows)[name].holder == holder ==> rows[name] == Row("", 0)
      ensures forall n :: n in rows && (n != name || old(rows)[n].holder != holder) ==> rows[n] == old(rows)[n]
    {
      if name in rows && rows[name].holder == holder {
        rows := rows[name := FREE];
      }
    }

    /** Held exactly when some holder leads at this reading; that holder is named,
        with the time it has left. */
    method Status(name: string, now: int) returns (s: LeaseStatus)
      ensures s.held <==> name in rows && rows[name].holder != "" && Leads(rows[name], rows[name].holder, now)
      ensures s.held <==> name in rows && rows[name].holder != "" && now <= rows[name].expiresAt
      ensures s.held ==> s.holder == rows[name].holder && now + s.expiresIn == rows[name].expiresAt
      ensures !s.held ==> s.holder == "" && s.expiresIn == 0
    {
      var held := name in rows && rows[name].holder != "" && rows[name].expiresAt >= now;
      s := if held then LeaseStatus(true, rows[name].holder, rows[name].expiresAt - now) else LeaseStatus(false, "", 0);
    }
  }

  // ---------------------------------------------------------------------
  // Runs of many nodes on one lease
  // ---------------------------------------------------------------------

  /** All calls use one ttl; a node's clock is within `skew` of the shared one. */
  datatype Config = Config(ttl: nat, skew: nat)

  datatype Call = Call(holder: string, reading: int)

  /** `calls` are the acquires that have read their clock and not yet run their
      UPDATE. For the statements only: the latest reading each node has taken; for
      a node that acquired and has not released since, the reading of its latest
      acquire (`held`) and the largest reading of any of them (`granted`). */
  datatype State = State(clock: int, row: Row, calls: map<nat, Call>, read: map<string, int>,
                         held: map<string, int>, granted: map<string, int>)

  datatype Action =
    | Tick(secs: nat)
    | ReadClock(id: nat, holder: string, reading: int)
    | Update(id: nat)
    | Crash(id: nat)
    | GiveUp(holder: string)

  function Initial(clock: int): State { State(clock, FREE, map[], map[], map[], map[]) }

  predicate Enabled(c: Config, s: State, a: Action) {
    match a
    case Tick(secs) => true
    case ReadClock(id, h, r) =>
      && id !in s.calls && h != ""
      && s.clock - c.skew <= r <= s.clock + c.skew
      && (h in s.read ==> s.read[h] <= r)     // a node's own clock does not go back
    case Update(id) => id in s.calls
    case Crash(id) => id in s.calls
    case GiveUp(h) => h != ""
  }

  predicate Wins(s: State, id: nat)
    requires id in s.calls
  {
    Claimable(s.row, s.calls[id].holder, s.calls[id].reading)
  }

  function Step(c: Config, s: State, a: Action): State
    requires Enabled(c, s, a)
  {
    match a
    case Tick(secs) => s.(clock := s.clock + secs)
    case ReadClock(id, h, r) => s.(calls := s.calls[id := Call(h, r)], read := s.read[h := r])
    case Update(id) =>
      var h, r := s.calls[id].holder, s.calls[id].reading;
      var t := s.(calls := s.calls - {id}, row := Claimed(s.row, h, r, c.ttl));
      if !Wins(s, id) then t
      else t.(held := s.held[h := r], granted := s.granted[h := if h in s.granted then Max(s.granted[h], r) else r])
    case Crash(id) => s.(calls := s.calls - {id})
    case GiveUp(h) => s.(row := Released(s.row, h), held := s.held - {h}, granted := s.granted - {h})
  }

  predicate Runs(c: Config, s: State, run: seq<Action>)
    decreases |run|
  {
    run == [] || (Enabled(c, s, run[0]) && Runs(c, Step(c, s, run[0]), run[1..]))
  }

  function After(c: Config, s: State, run: seq<Action>): State
    requires Runs(c, s, run)
    decreases |run|
  {
    if run == [] then s else After(c, Step(c, s, run[0]), run[1..])
  }

  /** An acquire is two steps, whatever happens in between: any node may read its clock,
      which lies within the skew and not before its own last reading; and the UPDATE does to
      the row as it then is what the call does to the table. */
  lemma AcquireIsTwoSteps(c: Config, s: State, id: nat, holder: string, reading: int)
    requires holder != ""
    ensures id !in s.calls && s.clock - c.skew <= reading <= s.clock + c.skew && (holder in s.read ==> s.read[holder] <= reading) ==>
              Enabled(c, s, ReadClock(id, holder, reading))
              && Step(c, s, ReadClock(id, holder, reading))
                 == s.(calls := s.calls[id := Call(holder, reading)], read := s.read[holder := reading])
    ensures id in s.calls && s.calls[id] == Call(holder, reading) ==>
              Enabled(c, s, Update(id)) && (Wins(s, id) <==> s.row.holder == holder || s.row.expiresAt < reading)
              && Step(c, s, Update(id)).row == (if Wins(s, id) then Row(holder, reading + c.ttl) else s.row)
              && Step(c, s, Update(id)).calls == s.calls - {id}
  {
  }

  /** A release takes effect in every state, a call may be cut short in every state, and
      time may pass. */
  lemma OthersAreSteps(c: Config, s: State, id: nat, holder: string, secs: nat)
    requires holder != ""
    ensures Enabled(c, s, GiveUp(holder)) && Enabled(c, s, Tick(secs)) && (id in s.calls ==> Enabled(c, s, Crash(id)))
    ensures Step(c, s, GiveUp(holder)).row == (if s.row.holder == holder then Row("", 0) else s.row)
    ensures Step(c, s, GiveUp(holder)).held == s.held - {holder} && Step(c, s, GiveUp(holder)).calls == s.calls
    ensures Step(c, s, Tick(secs)) == s.(clock := s.clock + secs)
    ensures id in s.calls ==> Step(c, s, Crash(id)) == s.(calls := s.calls - {id})
  {
  }

  // ---------------------------------------------------------------------
  // Exclusivity
  // ---------------------------------------------------------------------

  /** A node that acquired and has not released either still has the row, at least
      until its latest reading plus ttl, or that time is over on the shared clock,
      less the skew. */
  ghost predicate Inv(c: Config, s: State) {
    && (forall id :: id in s.calls ==> s.calls[id].holder != "" && s.calls[id].reading <= s.clock + c.skew)
    && (forall h :: h in s.held ==> h != "" && (Kept(c, s.row, h, s.held[h]) || s.clock > s.held[h] + c.ttl - c.skew))
  }

  predicate Kept(c: Config, row: Row, h: string, reading: int) {
    row.holder == h && row.expiresAt >= reading + c.ttl
  }

  lemma InvStep(c: Config, s: State, a: Action)
    requires Inv(c, s) && Enabled(c, s, a)
    ensures Inv(c, Step(c, s, a))
  {
  }

  lemma {:induction false} InvRun(c: Config, s: State, run: seq<Action>)
    requires Inv(c, s) && Runs(c, s, run)
    ensures Inv(c, After(c, s, run))
    decreases |run|
  {
    if run != [] {
      InvStep(c, s, run[0]);
      InvRun(c, Step(c, s, run[0]), run[1..]);
    }
  }

  /** Whatever the delays between reading the clock and the UPDATE, and however
      calls overlap: another node's acquire succeeds only after the time of the
      holder's latest successful acquire plus ttl, less the skew. */
  lemma ExclusiveSinceLatest(c: Config, clock: int, run: seq<Action>, h: string, id: nat)
    requires Runs(c, Initial(clock), run)
    requires var s := After(c, Initial(clock), run);
      h in s.held && id in s.calls && s.calls[id].holder != h && Wins(s, id)
    ensures var s := After(c, Initial(clock), run);
      s.clock > s.held[h] + c.ttl - c.skew
  {
    InvRun(c, Initial(clock), run);
  }

  /** While that time lasts the node is the leader, whichever clock asks. */
  lemma StaysLeader(c: Config, clock: int, run: seq<Action>, h: string, now: int)
    requires Runs(c, Initial(clock), run)
    requires var s := After(c, Initial(clock), run);
      h in s.held && s.clock <= s.held[h] + c.ttl - c.skew && now <= s.clock + c.skew
    ensures Leads(After(c, Initial(clock), run).row, h, now)
  {
    InvRun(c, Initial(clock), run);
  }

  // ---------------------------------------------------------------------
  // Calls of one holder in sequence
  // ---------------------------------------------------------------------

  ghost predicate Idle(s: State, h: string) {
    forall id :: id in s.calls ==> s.calls[id].holder != h
  }

  /** No node begins a call, or releases, while a call of its own is under way. */
  ghost predicate Sequential(c: Config, s: State, run: seq<Action>)
    requires Runs(c, s, run)
    decreases |run|
  {
    run != [] ==>
      && (run[0].ReadClock? || run[0].GiveUp? ==> Idle(s, run[0].holder))
      && Sequential(c, Step(c, s, run[0]), run[1..])
  }

  ghost predicate SeqInv(s: State) {
    && s.held == s.granted
    && (forall h :: h in s.held ==> h in s.read && s.held[h] <= s.read[h])
    && (forall id :: id in s.calls ==> s.calls[id].holder in s.read && s.calls[id].reading == s.read[s.calls[id].holder])
    && (forall i, j :: i in s.calls && j in s.calls && s.calls[i].holder == s.calls[j].holder ==> i == j)
  }

  lemma {:induction false} SequentialRun(c: Config, s: State, run: seq<Action>)
    requires SeqInv(s) && Runs(c, s, run) && Sequential(c, s, run)
    ensures SeqInv(After(c, s, run))
    decreases |run|
  {
    if run != [] {
      SequentialRun(c, Step(c, s, run[0]), run[1..]);
    }
  }

  /** When each node's calls are sequential, the guarantee holds for every acquire
      since its last release: told True at reading t, nobody else is before t + ttl
      is over, less the skew. */
  lemma Exclusive(c: Config, clock: int, run: seq<Action>, h: string, id: nat)
    requires Runs(c, Initial(clock), run) && Sequential(c, Initial(clock), run)
    requires var s := After(c, Initial(clock), run);
      h in s.granted && id in s.calls && s.calls[id].holder != h && Wins(s, id)
    ensures var s := After(c, Initial(clock), run);
      s.clock > s.granted[h] + c.ttl - c.skew
  {
    InvRun(c, Initial(clock), run);
    SequentialRun(c, Initial(clock), run);
  }

  // ---------------------------------------------------------------------
  // Exactly when overlapping calls do harm
  // ---------------------------------------------------------------------

  /** The row of a holder expires at the reading of its latest UPDATE plus ttl, which
      is never above the largest it was granted. */
  ghost predicate Dated(c: Config, s: State) {
    && "" !in s.held && (forall id :: id in s.calls ==> s.calls[id].holder != "")
    && (forall h :: h in s.held ==> h in s.granted && s.held[h] <= s.granted[h])
    && (forall h :: h in s.held && s.row.holder == h ==> s.row.expiresAt == s.held[h] + c.ttl)
  }

  lemma {:induction false} DatedRun(c: Config, s: State, run: seq<Action>)
    requires Dated(c, s) && Runs(c, s, run)
    ensures Dated(c, After(c, s, run))
    decreases |run|
  {
    if run != [] {
      DatedStep(c, s, run[0]);
      DatedRun(c, Step(c, s, run[0]), run[1..]);
    }
  }

  lemma DatedStep(c: Config, s: State, a: Action)
    requires Dated(c, s) && Enabled(c, s, a)
    ensures Dated(c, Step(c, s, a))
  {
  }

  /** Up to the time it was told, nobody else can take the row from this holder. */
  ghost predicate Safe(c: Config, s: State, h: string)
    requires h in s.granted
  {
    forall other: string, now :: other != h && now <= s.granted[h] + c.ttl ==> !Claimable(s.row, other, now)
  }

  lemma SafeHere(c: Config, s: State, h: string)
    requires Dated(c, s) && h in s.held && s.row.holder == h
    ensures h in s.granted && (Safe(c, s, h) <==> s.held[h] == s.granted[h])
  {
    if s.held[h] < s.granted[h] {
      var other := h + "'";
      assert |other| != |h|;
      assert Claimable(s.row, other, s.granted[h] + c.ttl);
    }
  }

  /** In every reachable state, however calls overlap: while a holder has the row, it
      is safe from every other node up to the time it was told exactly when its latest
      UPDATE was also the one with the latest reading. */
  lemma SafeIff(c: Config, clock: int, run: seq<Action>, h: string)
    requires Runs(c, Initial(clock), run)
    requires var s := After(c, Initial(clock), run); h in s.held && s.row.holder == h
    ensures var s := After(c, Initial(clock), run);
      && h in s.granted
      && ((forall other: string, now :: other != h && now <= s.granted[h] + c.ttl ==> !Claimable(s.row, other, now))
          <==> s.held[h] == s.granted[h])
  {
    DatedRun(c, Initial(clock), run);
    SafeHere(c, After(c, Initial(clock), run), h);
  }

  /** No winning UPDATE of a node lands after one of its own with a later reading. */
  ghost predicate InOrder(c: Config, s: State, run: seq<Action>)
    requires Runs(c, s, run)
    decreases |run|
  {
    run != [] ==>
      && (run[0].Update? && Wins(s, run[0].id) && s.calls[run[0].id].holder in s.granted ==>
            s.calls[run[0].id].reading >= s.granted[s.calls[run[0].id].holder])
      && InOrder(c, Step(c, s, run[0]), run[1..])
  }

  /** At every point of the run, whoever was told that it leads and has the row is safe
      from all others up to the time it was told. */
  ghost predicate AlwaysSafe(c: Config, s: State, run: seq<Action>)
    requires Runs(c, s, run)
    decreases |run|
  {
    && (forall h :: h in s.granted && s.row.holder == h ==> Safe(c, s, h))
    && (run != [] ==> AlwaysSafe(c, Step(c, s, run[0]), run[1..]))
  }

  lemma HonouredStep(c: Config, s: State, a: Action)
    requires s.held == s.granted && Enabled(c, s, a)
    ensures Step(c, s, a).held == Step(c, s, a).granted
       <==> (a.Update? && Wins(s, a.id) && s.calls[a.id].holder in s.granted ==>
               s.calls[a.id].reading >= s.granted[s.calls[a.id].holder])
  {
    var t := Step(c, s, a);
    if a.Update? && Wins(s, a.id) {
      var h := s.calls[a.id].holder;
      assert t.held[h] == s.calls[a.id].reading;
    }
  }

  /** The UPDATE that lands out of order leaves its node with less than it was told. */
  lemma OutOfOrderUnsafe(c: Config, s: State, a: Action)
    requires Dated(c, s) && s.held == s.granted && Enabled(c, s, a) && Step(c, s, a).held != Step(c, s, a).granted
    ensures var t := Step(c, s, a); t.row.holder in t.granted && !Safe(c, t, t.row.holder)
  {
    hide Dated, Safe;
    var t := Step(c, s, a);
    HonouredStep(c, s, a);
    DatedStep(c, s, a);
    SafeHere(c, t, t.row.holder);
  }

  lemma HonouredIsSafe(c: Config, s: State)
    requires Dated(c, s) && s.held == s.granted
    ensures forall h :: h in s.granted && s.row.holder == h ==> Safe(c, s, h)
  {
    hide Safe;
    if s.row.holder in s.held { SafeHere(c, s, s.row.holder); }
  }

  lemma {:induction false} InOrderIsSafe(c: Config, s: State, run: seq<Action>)
    requires Runs(c, s, run) && Dated(c, s) && s.held == s.granted
    ensures InOrder(c, s, run) <==> AlwaysSafe(c, s, run)
    decreases |run|
  {
    hide Step, Enabled, Wins, Dated, Safe;
    HonouredIsSafe(c, s);
    if run != [] {
      var t := Step(c, s, run[0]);
      HonouredStep(c, s, run[0]);
      DatedStep(c, s, run[0]);
      if t.held == t.granted {
        InOrderIsSafe(c, t, run[1..]);
      } else {
        OutOfOrderUnsafe(c, s, run[0]);
      }
    }
  }

  /** The condition on runs is exact: over every run, whoever has the row is at every
      point safe from all others up to the time it was told, if and only if no UPDATE
      lands after one of the same node with a later reading. */
  lemma InOrderIff(c: Config, clock: int, run: seq<Action>)
    requires Runs(c, Initial(clock), run)
    ensures InOrder(c, Initial(clock), run) <==> AlwaysSafe(c, Initial(clock), run)
  {
    InOrderIsSafe(c, Initial(clock), run);
  }

  lemma {:induction false} InOrderHonoured(c: Config, s: State, run: seq<Action>)
    requires Runs(c, s, run) && s.held == s.granted && InOrder(c, s, run)
    ensures After(c, s, run).held == After(c, s, run).granted
    decreases |run|
  {
    if run != [] {
      hide Step, Enabled, Wins;
      HonouredStep(c, s, run[0]);
      InOrderHonoured(c, Step(c, s, run[0]), run[1..]);
    }
  }

  /** So the guarantee for every acquire since the last release needs no more than
      that. */
  lemma ExclusiveInOrder(c: Config, clock: int, run: seq<Action>, h: string, id: nat)
    requires Runs(c, Initial(clock), run) && InOrder(c, Initial(clock), run)
    requires var s := After(c, Initial(clock), run);
      h in s.granted && id in s.calls && s.calls[id].holder != h && Wins(s, id)
    ensures var s := After(c, Initial(clock), run);
      s.clock > s.granted[h] + c.ttl - c.skew
  {
    InvRun(c, Initial(clock), run);
    InOrderHonoured(c, Initial(clock), run);
  }

  /** Out of order, an old renewal that runs late shortens the lease: a node told
      True at second 50 of a 60-second lease loses it at second 61. */
  lemma OverlappingCallsShorten()
    ensures var c := Config(60, 0);
      var run := [ReadClock(0, "a", 0), Tick(50), ReadClock(1, "a", 50), Update(1), Update(0), Tick(11),
                  ReadClock(2, "b", 61)];
      && Runs(c, Initial(0), run)
      && var s := After(c, Initial(0), run);
         "a" in s.granted && s.granted["a"] == 50 && Wins(s, 2) && s.clock <= s.granted["a"] + c.ttl
  {
    var c := Config(60, 0);
    var s1 := Step(c, Initial(0), ReadClock(0, "a", 0));
    var s2 := Step(c, s1, Tick(50));
    var s3 := Step(c, s2, ReadClock(1, "a", 50));
    assert s3.calls == map[0 := Call("a", 0), 1 := Call("a", 50)];
    var s4 := Step(c, s3, Update(1));
    assert s4.row == Row("a", 110) && s4.calls == map[0 := Call("a", 0)];
    var s5 := Step(c, s4, Update(0));
    assert s5.row == Row("a", 60) && s5.granted["a"] == 50;
    var s6 := Step(c, s5, Tick(11));
    var s7 := Step(c, s6, ReadClock(2, "b", 61));
    Last(c, s6, ReadClock(2, "b", 61), []);
    Last(c, s5, Tick(11), [ReadClock(2, "b", 61)]);
    Last(c, s4, Update(0), [Tick(11), ReadClock(2, "b", 61)]);
    Last(c, s3, Update(1), [Update(0), Tick(11), ReadClock(2, "b", 61)]);
    Last(c, s2, ReadClock(1, "a", 50), [Update(1), Update(0), Tick(11), ReadClock(2, "b", 61)]);
    Last(c, s1, Tick(50), [ReadClock(1, "a", 50), Update(1), Update(0), Tick(11), ReadClock(2, "b", 61)]);
    Last(c, Initial(0), ReadClock(0, "a", 0),
         [Tick(50), ReadClock(1, "a", 50), Update(1), Update(0), Tick(11), ReadClock(2, "b", 61)]);
  }

  lemma Last(c: Config, s: State, a: Action, rest: seq<Action>)
    requires Enabled(c, s, a) && Runs(c, Step(c, s, a), rest)
    ensures Runs(c, s, [a] + rest) && After(c, s, [a] + rest) == After(c, Step(c, s, a), rest)
  {
    assert ([a] + rest)[1..] == rest;
  }
}
