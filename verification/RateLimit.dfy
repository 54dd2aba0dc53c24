/** Two sliding-window limiters: one pops expired hits off the front of a deque
    and keeps a hit exactly 60 seconds old, the other filters a list and drops it. */
module RateLimit {
  import opened Collections

  const WINDOW: real := 60.0

  /** `closed`: a hit exactly WINDOW seconds old still counts. */
  datatype Rule = Rule(limit: int, closed: bool)

  predicate Live(rule: Rule, t: real, now: real) {
    if rule.closed then now - t <= WINDOW else now - t < WINDOW
  }

  function Popped(rule: Rule, q: seq<real>, now: real): seq<real> {
    if q != [] && !Live(rule, q[0], now) then Popped(rule, q[1..], now) else q
  }

  function Recent(rule: Rule, q: seq<real>, now: real): seq<real> {
    if q == [] then []
    else Recent(rule, q[..|q| - 1], now) + (if Live(rule, q[|q| - 1], now) then [q[|q| - 1]] else [])
  }

  /** Not more than 60 seconds apart, or less than 60. */
  ghost predicate Within60(rule: Rule, t: real, now: real) {
    if rule.closed then now <= t + 60.0 else now < t + 60.0
  }

  /** What is recent are the entries of the last 60 seconds, in order. */
  lemma {:induction false} RecentIs(rule: Rule, q: seq<real>, now: real) returns (at: seq<nat>)
    ensures Ascending(at) && |Recent(rule, q, now)| == |at|
    ensures forall k: nat :: k in at <==> k < |q| && Within60(rule, q[k], now)
    ensures forall j :: 0 <= j < |at| ==> at[j] < |q| && Recent(rule, q, now)[j] == q[at[j]]
  {
    if q == [] {
      at := [];
    } else {
      var n := |q| - 1;
      at := RecentIs(rule, q[..n], now);
      AscendingSnoc(at, n);
      assert forall k: nat :: k < n ==> q[..n][k] == q[k];
      if Within60(rule, q[n], now) {
        at := at + [n];
      }
    }
  }

  lemma {:induction false} RecentCount(rule: Rule, q: seq<real>, now: real)
    ensures |Recent(rule, q, now)| == |set i | 0 <= i < |q| && Within60(rule, q[i], now)|
  {
    if q != [] {
      var n := |q| - 1;
      var init := q[..n];
      RecentCount(rule, init, now);
      OneMore((set i | 0 <= i < n && Within60(rule, init[i], now)), (set i | 0 <= i < |q| && Within60(rule, q[i], now)),
              n, Within60(rule, q[n], now));
    }
  }

  ghost predicate Sorted(q: seq<real>) {
    forall i, j :: 0 <= i < j < |q| ==> q[i] <= q[j]
  }

  ghost predicate UpTo(q: seq<real>, x: real) {
    forall i :: 0 <= i < |q| ==> q[i] <= x
  }

  lemma SortedSnoc(q: seq<real>, x: real)
    requires Sorted(q) && UpTo(q, x)
    ensures Sorted(q + [x]) && UpTo(q + [x], x)
  {
  }

  /** On times in order, dropping expired ones from the front is the filter. */
  lemma {:induction false} PoppingIsFiltering(rule: Rule, q: seq<real>, now: real)
    requires Sorted(q)
    ensures Popped(rule, q, now) == Recent(rule, q, now)
  {
    if q == [] {
    } else if Live(rule, q[0], now) {
      KeepAll(rule, q, now);
    } else {
      PoppingIsFiltering(rule, q[1..], now);
      DropFirst(rule, q, now);
    }
  }

  lemma {:induction false} KeepAll(rule: Rule, q: seq<real>, now: real)
    requires Sorted(q) && (q != [] ==> Live(rule, q[0], now))
    ensures Recent(rule, q, now) == q
  {
    if q != [] {
      if |q| > 1 { KeepAll(rule, q[..|q| - 1], now); }
      assert q == q[..|q| - 1] + [q[|q| - 1]];
    }
  }

  lemma {:induction false} DropFirst(rule: Rule, q: seq<real>, now: real)
    requires q != [] && !Live(rule, q[0], now)
    ensures Recent(rule, q, now) == Recent(rule, q[1..], now)
  {
    if |q| > 1 {
      DropFirst(rule, q[..|q| - 1], now);
      assert q[..|q| - 1][1..] == q[1..][..|q| - 2];
    }
  }

  // ---------------------------------------------------------------------
  // The two limiters
  // ---------------------------------------------------------------------

  type Table = map<string, seq<real>>

  function Hits(t: Table, key: string): seq<real> { if key in t then t[key] else [] }

  class SimpleRateLimiter {
    const limit: int
    var hits: Table

    constructor (limit: int)
      ensures this.limit == limit && hits == map[]
    {
      this.limit := limit;
      hits := map[];
    }

    method Allow(key: string, now: real) returns (ok: bool)
      modifies this`hits
      ensures var q := Popped(Rule(limit, true), Hits(old(hits), key), now);
        && ok == (|q| < limit)
        && hits == old(hits)[key := if ok then q + [now] else q]
    {
      var q := if key in hits then hits[key] else [];
      while q != [] && now - q[0] > WINDOW
        invariant Popped(Rule(limit, true), q, now) == Popped(Rule(limit, true), Hits(hits, key), now)
        decreases |q|
      {
        q := q[1..];
      }
      ok := |q| < limit;
      if ok {
        q := q + [now];
      }
      hits := hits[key := q];
    }
  }

  const RATE_MAX: int := 20

  class AssistantLimiter {
    var rate: Table

    constructor ()
      ensures rate == map[]
    {
      rate := map[];
    }

    method RateLimited(email: string, now: real) returns (limited: bool)
      modifies this
      ensures var q := Recent(Rule(20, false), Hits(old(rate), email), now);
        && limited == (|q| >= 20)
        && rate == old(rate)[email := if limited then q else q + [now]]
    {
      var all := if email in rate then rate[email] else [];
      var q := [];
      for i := 0 to |all|
        invariant q == Recent(Rule(RATE_MAX, false), all[..i], now)
      {
        assert all[..i + 1][..i] == all[..i];
        if now - all[i] < WINDOW {
          q := q + [all[i]];
        }
      }
      assert all[..|all|] == all;
      rate := rate[email := q];
      if |q| >= RATE_MAX {
        return true;
      }
      rate := rate[email := q + [now]];
      return false;
    }
  }

  // ---------------------------------------------------------------------
  // Whole runs
  // ---------------------------------------------------------------------

  datatype Call = Call(key: string, time: real)

  /** The table after a run of calls, each served as the methods above serve it. */
  function Served(rule: Rule, popping: bool, calls: seq<Call>): Table {
    if calls == [] then map[]
    else
      var t, c := Served(rule, popping, calls[..|calls| - 1]), calls[|calls| - 1];
      var q := if popping then Popped(rule, Hits(t, c.key), c.time) else Recent(rule, Hits(t, c.key), c.time);
      t[c.key := if |q| < rule.limit then q + [c.time] else q]
  }

  /** Whether the last call of a run is let through. */
  predicate LetThrough(rule: Rule, popping: bool, calls: seq<Call>)
    requires calls != []
  {
    var t, c := Served(rule, popping, calls[..|calls| - 1]), calls[|calls| - 1];
    (if popping then |Popped(rule, Hits(t, c.key), c.time)| else |Recent(rule, Hits(t, c.key), c.time)|) < rule.limit
  }

  /** The times of all calls of one key let through in a run, oldest first. */
  function Admitted(rule: Rule, popping: bool, calls: seq<Call>, key: string): seq<real> {
    if calls == [] then []
    else
      Admitted(rule, popping, calls[..|calls| - 1], key)
      + (if calls[|calls| - 1].key == key && LetThrough(rule, popping, calls) then [calls[|calls| - 1].time] else [])
  }

  ghost predicate ClockForward(calls: seq<Call>) {
    forall i, j :: 0 <= i < j < |calls| ==> calls[i].time <= calls[j].time
  }

  lemma {:induction false} AdmittedSorted(rule: Rule, popping: bool, calls: seq<Call>, key: string)
    requires ClockForward(calls)
    ensures Sorted(Admitted(rule, popping, calls, key))
    ensures calls != [] ==> UpTo(Admitted(rule, popping, calls, key), calls[|calls| - 1].time)
  {
    if |calls| > 1 {
      AdmittedSorted(rule, popping, calls[..|calls| - 1], key);
      assert calls[|calls| - 2].time <= calls[|calls| - 1].time;
      SortedSnoc(Admitted(rule, popping, calls[..|calls| - 1], key), calls[|calls| - 1].time);
    }
  }

  /** A filter at a later time can be applied to the result of an earlier one. */
  lemma {:induction false} RecentTwice(rule: Rule, q: seq<real>, t0: real, t1: real)
    requires t0 <= t1
    ensures Recent(rule, Recent(rule, q, t0), t1) == Recent(rule, q, t1)
  {
    if q != [] {
      var init, x := q[..|q| - 1], q[|q| - 1];
      RecentTwice(rule, init, t0, t1);
      RecentConcat(rule, Recent(rule, init, t0), if Live(rule, x, t0) then [x] else [], t1);
    }
  }

  lemma {:induction false} RecentConcat(rule: Rule, a: seq<real>, b: seq<real>, now: real)
    ensures Recent(rule, a + b, now) == Recent(rule, a, now) + Recent(rule, b, now)
  {
    if b == [] {
      assert a + b == a;
    } else {
      assert (a + b)[..|a + b| - 1] == a + b[..|b| - 1];
      RecentConcat(rule, a, b[..|b| - 1], now);
    }
  }

  /** One served call, on the times the key's entry stands for. */
  lemma ServeOnce(rule: Rule, all: seq<real>, t: real, now: real)
    requires Sorted(all) && UpTo(all, t) && t <= now
    ensures var kept := Recent(rule, all, t);
      && Sorted(kept) && Sorted(kept + [t])
      && Recent(rule, kept, now) == Recent(rule, all, now)
      && Recent(rule, kept + [t], now) == Recent(rule, all + [t], now)
  {
    var kept := Recent(rule, all, t);
    RecentSorted(rule, all, t, t);
    SortedSnoc(kept, t);
    RecentTwice(rule, all, t, now);
    RecentConcat(rule, kept, [t], now);
    RecentConcat(rule, all, [t], now);
  }

  /** What the table holds for a key is, as seen from now on, the admitted calls of
      that key alone: popping or filtering, and whatever other keys did. */
  lemma {:induction false} TableIsRecent(rule: Rule, popping: bool, calls: seq<Call>, key: string, now: real)
    requires ClockForward(calls) && (calls != [] ==> calls[|calls| - 1].time <= now)
    ensures var all := Admitted(rule, popping, calls, key);
      && Sorted(Hits(Served(rule, popping, calls), key))
      && Recent(rule, Hits(Served(rule, popping, calls), key), now) == Recent(rule, all, now)
      && Popped(rule, Hits(Served(rule, popping, calls), key), now) == Recent(rule, all, now)
  {
    hide Admitted, Popped;
    if calls == [] {
      assert Admitted(rule, popping, calls, key) == [] by { NothingAdmitted(rule, popping, key); }
    } else {
      hide Recent, Served, LetThrough;
      var init, c := calls[..|calls| - 1], calls[|calls| - 1];
      if |init| > 0 { assert calls[|init| - 1].time <= calls[|init|].time; }
      TableIsRecent(rule, popping, init, key, c.time);
      TableIsRecent(rule, popping, init, key, now);
      AdmittedUpTo(rule, popping, init, key, c.time);
      OneMoreCall(rule, popping, calls, key);
      if c.key == key {
        ServeOnce(rule, Admitted(rule, popping, init, key), c.time, now);
      }
    }
    PoppingIsFiltering(rule, Hits(Served(rule, popping, calls), key), now);
  }

  lemma NothingAdmitted(rule: Rule, popping: bool, key: string)
    ensures Admitted(rule, popping, [], key) == []
  {
  }

  lemma OneMoreCall(rule: Rule, popping: bool, calls: seq<Call>, key: string)
    requires calls != []
    ensures var init, c := calls[..|calls| - 1], calls[|calls| - 1];
      var q := Hits(Served(rule, popping, init), key);
      var kept := if popping then Popped(rule, q, c.time) else Recent(rule, q, c.time);
      var all, ok := Admitted(rule, popping, init, key), c.key == key && LetThrough(rule, popping, calls);
      && Admitted(rule, popping, calls, key) == (if ok then all + [c.time] else all)
      && Hits(Served(rule, popping, calls), key) == (if ok then kept + [c.time] else if c.key == key then kept else q)
      && (c.key == key ==> (LetThrough(rule, popping, calls) <==> |kept| < rule.limit))
  {
  }

  lemma AdmittedUpTo(rule: Rule, popping: bool, calls: seq<Call>, key: string, now: real)
    requires ClockForward(calls) && (calls != [] ==> calls[|calls| - 1].time <= now)
    ensures Sorted(Admitted(rule, popping, calls, key)) && UpTo(Admitted(rule, popping, calls, key), now)
  {
    AdmittedSorted(rule, popping, calls, key);
  }

  lemma {:induction false} RecentSorted(rule: Rule, q: seq<real>, now: real, x: real)
    requires Sorted(q) && UpTo(q, x)
    ensures Sorted(Recent(rule, q, now)) && UpTo(Recent(rule, q, now), x)
  {
    if q != [] {
      var init := q[..|q| - 1];
      RecentSorted(rule, init, now, q[|q| - 1]);
      SortedSnoc(Recent(rule, init, now), q[|q| - 1]);
    }
  }

  /** Exactly when a call is refused: the last 60 seconds hold `limit` admitted
      calls of its key. Deque and list agree. */
  lemma RefusedExactlyWhenFull(rule: Rule, popping: bool, calls: seq<Call>)
    requires calls != [] && ClockForward(calls)
    ensures var c, init := calls[|calls| - 1], calls[..|calls| - 1];
      !LetThrough(rule, popping, calls) <==> |Recent(rule, Admitted(rule, popping, init, c.key), c.time)| >= rule.limit
    ensures var c, all := calls[|calls| - 1], Admitted(rule, popping, calls[..|calls| - 1], calls[|calls| - 1].key);
      !LetThrough(rule, popping, calls) <==> |set i | 0 <= i < |all| && Within60(rule, all[i], c.time)| >= rule.limit
  {
    RecentCount(rule, Admitted(rule, popping, calls[..|calls| - 1], calls[|calls| - 1].key), calls[|calls| - 1].time);
    var c, init := calls[|calls| - 1], calls[..|calls| - 1];
    if |init| > 0 { assert calls[|init| - 1].time <= calls[|init|].time; }
    TableIsRecent(rule, popping, init, c.key, c.time);
  }

  /** The admitted calls from `a` on, for one window length. */
  function InWindow(rule: Rule, q: seq<real>, a: real): nat {
    if q == [] then 0
    else InWindow(rule, q[..|q| - 1], a) + (if a <= q[|q| - 1] && Live(rule, a, q[|q| - 1]) then 1 else 0)
  }

  lemma {:induction false} WindowCount(rule: Rule, q: seq<real>, a: real)
    ensures InWindow(rule, q, a) == |set i | 0 <= i < |q| && a <= q[i] && Within60(rule, a, q[i])|
  {
    if q != [] {
      var n := |q| - 1;
      var init := q[..n];
      WindowCount(rule, init, a);
      OneMore((set i | 0 <= i < n && a <= init[i] && Within60(rule, a, init[i])),
              (set i | 0 <= i < |q| && a <= q[i] && Within60(rule, a, q[i])), n, a <= q[n] && Within60(rule, a, q[n]));
    }
  }

  lemma WindowSnoc(rule: Rule, q: seq<real>, x: real, a: real)
    ensures InWindow(rule, q + [x], a) == InWindow(rule, q, a) + (if a <= x && Live(rule, a, x) then 1 else 0)
  {
    assert (q + [x])[..|q|] == q;
  }

  lemma {:induction false} WindowWithinRecent(rule: Rule, q: seq<real>, a: real, now: real)
    requires Live(rule, a, now) && UpTo(q, now)
    ensures InWindow(rule, q, a) <= |Recent(rule, q, now)|
  {
    if q != [] {
      WindowWithinRecent(rule, q[..|q| - 1], a, now);
    }
  }

  /** Over every run with a clock that does not go back: in any window of 60
      seconds (closed for the deque, half-open for the list), wherever it starts,
      at most `limit` calls of a key are admitted. */
  lemma {:induction false} AtMostLimitPerWindow(rule: Rule, popping: bool, calls: seq<Call>, key: string, a: real)
    requires ClockForward(calls) && rule.limit >= 0
    ensures InWindow(rule, Admitted(rule, popping, calls, key), a) <= rule.limit
    ensures var all := Admitted(rule, popping, calls, key);
      |set i | 0 <= i < |all| && a <= all[i] && Within60(rule, a, all[i])| <= rule.limit
  {
    WindowCount(rule, Admitted(rule, popping, calls, key), a);
    hide InWindow, Within60;
    hide Admitted, LetThrough, Served, Recent;
    if calls == [] {
      NothingAdmitted(rule, popping, key);
    } else {
      var init, c := calls[..|calls| - 1], calls[|calls| - 1];
      AtMostLimitPerWindow(rule, popping, init, key, a);
      OneMoreCall(rule, popping, calls, key);
      if c.key == key && LetThrough(rule, popping, calls) {
        var all := Admitted(rule, popping, init, key);
        WindowSnoc(rule, all, c.time, a);
        if a <= c.time && Live(rule, a, c.time) {
          RefusedExactlyWhenFull(rule, popping, calls);
          assert |Recent(rule, all, c.time)| < rule.limit;
          if |init| > 0 { assert calls[|init| - 1].time <= c.time; }
          AdmittedUpTo(rule, popping, init, key, c.time);
          WindowWithinRecent(rule, all, a, c.time);
        }
      }
    }
  }
}
