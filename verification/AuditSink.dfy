/** The external audit sink: an outbox drain with a persisted cursor, run by any
    number of drainers that may overlap, fail or die at any point.

    Rows of `audit_log` are represented by their ids; commits happen in id order
    (one writer at a time). */
module AuditSink {
  import opened Collections
  import opened FirstReceipts

  const BATCH: nat := 200

  type Pid = nat

  /** Where one call of `drain_once` stands. In `Posting` the next row to post is
      `rows[next]`; `Stopped` is the loop left, the cursor not yet written. */
  datatype Drainer =
    | Idle
    | Opened(cursor: nat)
    | Posting(cursor: nat, rows: seq<nat>, next: nat)
    | Stopped(cursor: nat, lastOk: nat)

  datatype State = State(outbox: seq<nat>, cursor: nat, drainers: map<Pid, Drainer>, received: seq<nat>) {
    function At(p: Pid): Drainer { if p in drainers then drainers[p] else Idle }
    function Set(p: Pid, d: Drainer): State { this.(drainers := drainers[p := d]) }
  }

  datatype Action =
    | Commit(id: nat)         // an audited transaction commits
    | ReadCursor(p: Pid)
    | Fetch(p: Pid)           // SELECT ... WHERE id > cursor ORDER BY id LIMIT 200
    | PostOk(p: Pid)          // received, reported as success
    | PostLost(p: Pid)        // not received, reported as failure
    | PostTimedOut(p: Pid)    // received, yet reported as failure
    | Finish(p: Pid)          // no rows left
    | WriteCursor(p: Pid)
    | Crash(p: Pid)

  /** The position of the first id beyond `c`. */
  function FirstAfter(outbox: seq<nat>, c: nat): (k: nat)
    ensures k <= |outbox|
    ensures forall i :: k <= i < |outbox| ==> outbox[i] > c
    ensures k > 0 ==> outbox[k - 1] <= c
  {
    if outbox == [] || outbox[|outbox| - 1] <= c then |outbox| else FirstAfter(outbox[..|outbox| - 1], c)
  }

  function Selected(outbox: seq<nat>, c: nat): seq<nat> {
    var k := FirstAfter(outbox, c);
    outbox[k..Min(k + BATCH, |outbox|)]
  }

  /** The ids of the log beyond `c`. */
  function Above(outbox: seq<nat>, c: nat): set<nat> {
    set id | id in outbox && id > c
  }

  /** The least ids beyond `c`, in order: all of them, or as many as the limit allows. */
  ghost predicate LeastAbove(ids: seq<nat>, outbox: seq<nat>, c: nat, limit: nat) {
    && (forall i, j :: 0 <= i < j < |ids| ==> ids[i] < ids[j])
    && (forall id :: id in ids ==> id in Above(outbox, c))
    && |ids| == Min(limit, |Above(outbox, c)|)
    && (forall id, i :: id in Above(outbox, c) && id !in ids && 0 <= i < |ids| ==> ids[i] < id)
  }

  lemma {:induction false} AscendingCount(s: seq<nat>)
    requires forall i, j :: 0 <= i < j < |s| ==> s[i] < s[j]
    ensures |ToSet(s)| == |s|
  {
    DistinctCount(s);
  }

  /** In a log in id order the ids beyond `c` are those from the first one on. */
  lemma AboveIsTail(outbox: seq<nat>, c: nat)
    requires Ordered(outbox)
    ensures Above(outbox, c) == ToSet(outbox[FirstAfter(outbox, c)..])
    ensures |Above(outbox, c)| == |outbox| - FirstAfter(outbox, c)
  {
    hide Ordered, FirstAfter;
    var k := FirstAfter(outbox, c);
    var rest := outbox[k..];
    InOrder(outbox, k);
    AscendingCount(rest);
    forall id ensures id in Above(outbox, c) <==> id in rest {
      InTail(outbox, k, id);
      if i :| k <= i < |outbox| && outbox[i] == id { NotBeyond(outbox, c, i); }
      if i :| 0 <= i < |outbox| && outbox[i] == id { NotBeyond(outbox, c, i); }
    }
  }

  lemma InTail(s: seq<nat>, k: nat, x: nat)
    requires k <= |s|
    ensures x in s[k..] <==> exists i :: k <= i < |s| && s[i] == x
  {
    if i :| k <= i < |s| && s[i] == x { assert s[k..][i - k] == x; }
    if x in s[k..] {
      var i :| 0 <= i < |s[k..]| && s[k..][i] == x;
      assert s[k + i] == x;
    }
  }

  lemma InOrder(outbox: seq<nat>, a: nat)
    requires Ordered(outbox) && a <= |outbox|
    ensures forall i, j :: 0 <= i < j < |outbox[a..]| ==> outbox[a..][i] < outbox[a..][j]
  {
  }

  lemma NotBeyond(outbox: seq<nat>, c: nat, i: nat)
    requires Ordered(outbox) && i < |outbox|
    ensures outbox[i] > c <==> i >= FirstAfter(outbox, c)
  {
    var k := FirstAfter(outbox, c);
    if i < k { assert outbox[i] <= outbox[k - 1]; }
  }

  /** What is fetched: the least ids beyond the cursor. */
  lemma SelectedLeast(outbox: seq<nat>, c: nat)
    requires Ordered(outbox)
    ensures LeastAbove(Selected(outbox, c), outbox, c, 200)
  {
    hide Ordered, FirstAfter, Above;
    AboveIsTail(outbox, c);
    var k := FirstAfter(outbox, c);
    InOrder(outbox, k);
    var n := Min(BATCH, |outbox| - k);
    assert Selected(outbox, c) == outbox[k..][..n];
    HeadIsLeast(outbox[k..], n);
  }

  lemma HeadIsLeast(s: seq<nat>, n: nat)
    requires n <= |s| && forall i, j :: 0 <= i < j < |s| ==> s[i] < s[j]
    ensures forall i, j :: 0 <= i < j < n ==> s[..n][i] < s[..n][j]
    ensures forall x :: x in s[..n] ==> x in s
    ensures forall x, i :: x in s && x !in s[..n] && 0 <= i < n ==> s[..n][i] < x
  {
    forall x, i | x in s && x !in s[..n] && 0 <= i < n ensures s[i] < x {
      var j :| 0 <= j < |s| && s[j] == x;
      assert forall q :: 0 <= q < n ==> s[..n][q] != x;
    }
  }

  /** The first n of them delivered, those left are n fewer. */
  lemma FewerAbove(outbox: seq<nat>, c: nat, n: nat)
    requires Ordered(outbox) && 0 < n <= |Selected(outbox, c)|
    ensures |Above(outbox, Selected(outbox, c)[n - 1])| == |Above(outbox, c)| - n
  {
    hide Ordered, FirstAfter, Above;
    AboveIsTail(outbox, c);
    var k := FirstAfter(outbox, c);
    var last := Selected(outbox, c)[n - 1];
    assert last == outbox[k + n - 1];
    AboveIsTail(outbox, last);
    FirstAfterIts(outbox, k + n - 1);
  }

  /** What a pass that delivered n rows leaves pending. */
  lemma StillPending(outbox: seq<nat>, c: nat, n: nat)
    requires Ordered(outbox) && n <= |Selected(outbox, c)|
    ensures LeastAbove(Selected(outbox, c), outbox, c, 200)
    ensures |outbox| - FirstAfter(outbox, LastOk(Posting(c, Selected(outbox, c), n))) == |Above(outbox, c)| - n
  {
    hide Ordered, FirstAfter, Above, LeastAbove, Selected;
    SelectedLeast(outbox, c);
    AboveIsTail(outbox, LastOk(Posting(c, Selected(outbox, c), n)));
    if n > 0 { FewerAbove(outbox, c, n); }
  }

  lemma FirstAfterIts(outbox: seq<nat>, i: nat)
    requires Ordered(outbox) && i < |outbox|
    ensures FirstAfter(outbox, outbox[i]) == i + 1
  {
    NotBeyond(outbox, outbox[i], i);
    if i + 1 < |outbox| { NotBeyond(outbox, outbox[i], i + 1); }
  }

  function LastOk(d: Drainer): nat
    requires d.Posting? && d.next <= |d.rows|
  {
    if d.next == 0 then d.cursor else d.rows[d.next - 1]
  }

  predicate Enabled(s: State, a: Action) {
    match a
    case Commit(id) => id > 0 && (s.outbox == [] || id > s.outbox[|s.outbox| - 1])
    case ReadCursor(p) => s.At(p).Idle?
    case Fetch(p) => s.At(p).Opened?
    case PostOk(p) => s.At(p).Posting? && s.At(p).next < |s.At(p).rows|
    case PostLost(p) => s.At(p).Posting? && s.At(p).next < |s.At(p).rows|
    case PostTimedOut(p) => s.At(p).Posting? && s.At(p).next < |s.At(p).rows|
    case Finish(p) => s.At(p).Posting? && s.At(p).next == |s.At(p).rows|
    case WriteCursor(p) => s.At(p).Stopped?
    case Crash(p) => true
  }

  function Step(s: State, a: Action): State
    requires Enabled(s, a)
  {
    match a
    case Commit(id) => s.(outbox := s.outbox + [id])
    case ReadCursor(p) => s.Set(p, Opened(s.cursor))
    case Fetch(p) => s.Set(p, Posting(s.At(p).cursor, Selected(s.outbox, s.At(p).cursor), 0))
    case PostOk(p) =>
      var d := s.At(p);
      s.Set(p, d.(next := d.next + 1)).(received := s.received + [d.rows[d.next]])
    case PostLost(p) => s.Set(p, Stopped(s.At(p).cursor, LastOk(s.At(p))))
    case PostTimedOut(p) =>
      var d := s.At(p);
      s.Set(p, Stopped(d.cursor, LastOk(d))).(received := s.received + [d.rows[d.next]])
    case Finish(p) => s.Set(p, Stopped(s.At(p).cursor, LastOk(s.At(p))))
    case WriteCursor(p) =>
      var d := s.At(p);
      s.Set(p, Idle).(cursor := if d.lastOk != d.cursor then d.lastOk else s.cursor)
    case Crash(p) => s.Set(p, Idle)
  }

  /** Any drainer may crash at any moment; nothing is lost but its place. */
  lemma MayCrash(s: State, p: Pid)
    ensures
      Enabled(s, Crash(p)) &&
      var t := Step(s, Crash(p));
      && t.outbox == s.outbox && t.cursor == s.cursor && t.received == s.received && t.At(p).Idle?
      && forall q :: q != p ==> t.At(q) == s.At(q)
  {
  }

  /** A run is a list of actions, each enabled where it happens. */
  predicate Runs(s: State, run: seq<Action>)
    decreases |run|
  {
    run == [] || (Enabled(s, run[0]) && Runs(Step(s, run[0]), run[1..]))
  }

  function After(s: State, run: seq<Action>): State
    requires Runs(s, run)
    decreases |run|
  {
    if run == [] then s else After(Step(s, run[0]), run[1..])
  }

  // ---------------------------------------------------------------------
  // Safety
  // ---------------------------------------------------------------------

  ghost predicate Ordered(outbox: seq<nat>) {
    && (forall i, j :: 0 <= i < j < |outbox| ==> outbox[i] < outbox[j])
    && (forall i :: 0 <= i < |outbox| ==> outbox[i] > 0)
  }

  /** `c` is a place in the outbox no further than the first n rows. */
  ghost predicate Reached(outbox: seq<nat>, n: nat, c: nat) {
    (c == 0 || c in outbox) && FirstAfter(outbox, c) <= n
  }

  ghost predicate DrainerOk(outbox: seq<nat>, n: nat, d: Drainer) {
    match d
    case Idle => true
    case Opened(c) => Reached(outbox, n, c)
    case Posting(c, rows, next) =>
      var k := FirstAfter(outbox, c);
      && Reached(outbox, n, c)
      && next <= |rows| && k + |rows| <= |outbox| && k + next <= n
      && forall j :: 0 <= j < |rows| ==> rows[j] == outbox[k + j]
    case Stopped(c, lastOk) => Reached(outbox, n, c) && Reached(outbox, n, lastOk)
  }

  /** The consumer keeps the first n rows of the log; the cursor and every drainer
      stand within those n. */
  ghost predicate Inv(s: State) {
    var n := |Dedup(s.received)|;
    && Ordered(s.outbox)
    && Dedup(s.received) <= s.outbox
    && Reached(s.outbox, n, s.cursor)
    && forall p :: p in s.drainers ==> DrainerOk(s.outbox, n, s.drainers[p])
  }

  lemma FirstAfterCommit(outbox: seq<nat>, id: nat, c: nat)
    requires Ordered(outbox + [id]) && (c == 0 || c in outbox)
    ensures FirstAfter(outbox + [id], c) == FirstAfter(outbox, c)
  {
    assert (outbox + [id])[..|outbox|] == outbox;
    if c != 0 {
      var i :| 0 <= i < |outbox| && outbox[i] == c;
      assert (outbox + [id])[i] < (outbox + [id])[|outbox|];
    } else {
      assert (outbox + [id])[|outbox|] > 0;
    }
  }

  lemma DrainerCommit(outbox: seq<nat>, id: nat, n: nat, d: Drainer)
    requires Ordered(outbox + [id]) && DrainerOk(outbox, n, d)
    ensures DrainerOk(outbox + [id], n, d)
  {
    if !d.Idle? { FirstAfterCommit(outbox, id, d.cursor); }
    if d.Stopped? { FirstAfterCommit(outbox, id, d.lastOk); }
  }

  lemma LastOkReached(outbox: seq<nat>, n: nat, d: Drainer)
    requires Ordered(outbox) && d.Posting? && DrainerOk(outbox, n, d)
    ensures Reached(outbox, n, LastOk(d))
  {
    if d.next > 0 {
      var k := FirstAfter(outbox, d.cursor);
      assert LastOk(d) == outbox[k + d.next - 1];
    }
  }

  lemma CommitKeepsInv(s: State, id: nat)
    requires Inv(s) && Enabled(s, Commit(id))
    ensures Inv(Step(s, Commit(id)))
  {
    hide Dedup, FirstAfter, DrainerOk;
    forall p | p in s.drainers ensures DrainerOk(s.outbox + [id], |Dedup(s.received)|, s.drainers[p]) {
      DrainerCommit(s.outbox, id, |Dedup(s.received)|, s.drainers[p]);
    }
    FirstAfterCommit(s.outbox, id, s.cursor);
  }

  /** The sink receives the row a drainer is at: all rows before it were received,
      so the first receipts stay in order. */
  lemma ReceiveKeepsInv(s: State, p: Pid)
    requires Inv(s) && s.At(p).Posting? && s.At(p).next < |s.At(p).rows|
    ensures var d := s.At(p);
      var t := s.(received := s.received + [d.rows[d.next]]);
      Inv(t) && FirstAfter(s.outbox, d.cursor) + d.next + 1 <= |Dedup(t.received)|
  {
    hide Dedup, FirstAfter, DrainerOk;
    var d, n := s.At(p), |Dedup(s.received)|;
    var more := [d.rows[d.next]];
    RowAt(s.outbox, n, d);
    ReceiveInOrder(s.outbox, s.received, FirstAfter(s.outbox, d.cursor) + d.next);
    forall q | q in s.drainers ensures DrainerOk(s.outbox, |Dedup(s.received + more)|, s.drainers[q]) {
      DrainerGrows(s.outbox, n, |Dedup(s.received + more)|, s.drainers[q]);
    }
  }

  lemma RowAt(outbox: seq<nat>, n: nat, d: Drainer)
    requires d.Posting? && d.next < |d.rows| && DrainerOk(outbox, n, d)
    ensures var i := FirstAfter(outbox, d.cursor) + d.next;
      i < |outbox| && i <= n && d.rows[d.next] == outbox[i]
  {
    hide FirstAfter;
  }

  lemma DrainerGrows(outbox: seq<nat>, n: nat, m: nat, d: Drainer)
    requires n <= m && DrainerOk(outbox, n, d)
    ensures DrainerOk(outbox, m, d)
  {
  }

  lemma SetKeepsInv(s: State, p: Pid, d: Drainer)
    requires Inv(s) && DrainerOk(s.outbox, |Dedup(s.received)|, d)
    ensures Inv(s.Set(p, d))
  {
  }

  lemma StopKeepsInv(s: State, p: Pid)
    requires Inv(s) && s.At(p).Posting? && s.At(p).next <= |s.At(p).rows|
    ensures Inv(s.Set(p, Stopped(s.At(p).cursor, LastOk(s.At(p)))))
  {
    LastOkReached(s.outbox, |Dedup(s.received)|, s.At(p));
  }

  lemma PostKeepsInv(s: State, p: Pid)
    requires Inv(s) && Enabled(s, PostOk(p))
    ensures Inv(Step(s, PostOk(p)))
  {
    hide Dedup, FirstAfter, DrainerOk;
    var d := s.At(p);
    var t := s.(received := s.received + [d.rows[d.next]]);
    ReceiveKeepsInv(s, p);
    NextOk(s.outbox, |Dedup(t.received)|, d);
    SetKeepsInv(t, p, d.(next := d.next + 1));
  }

  lemma NextOk(outbox: seq<nat>, n: nat, d: Drainer)
    requires d.Posting? && d.next < |d.rows| && DrainerOk(outbox, n, d)
    requires FirstAfter(outbox, d.cursor) + d.next + 1 <= n
    ensures DrainerOk(outbox, n, d.(next := d.next + 1))
  {
    hide FirstAfter;
  }

  lemma TimeoutKeepsInv(s: State, p: Pid)
    requires Inv(s) && Enabled(s, PostTimedOut(p))
    ensures Inv(Step(s, PostTimedOut(p)))
  {
    hide Dedup;
    ReceiveKeepsInv(s, p);
    StopKeepsInv(s.(received := s.received + [s.At(p).rows[s.At(p).next]]), p);
  }

  lemma FetchKeepsInv(s: State, p: Pid)
    requires Inv(s) && Enabled(s, Fetch(p))
    ensures Inv(Step(s, Fetch(p)))
  {
    hide Dedup;
    SetKeepsInv(s, p, Posting(s.At(p).cursor, Selected(s.outbox, s.At(p).cursor), 0));
  }

  lemma WriteKeepsInv(s: State, p: Pid)
    requires Inv(s) && Enabled(s, WriteCursor(p))
    ensures Inv(Step(s, WriteCursor(p)))
  {
    hide Dedup;
    SetKeepsInv(s, p, Idle);
  }

  lemma ReadKeepsInv(s: State, p: Pid)
    requires Inv(s) && Enabled(s, ReadCursor(p))
    ensures Inv(Step(s, ReadCursor(p)))
  {
    SetKeepsInv(s, p, Opened(s.cursor));
  }

  lemma InvStep(s: State, a: Action)
    requires Inv(s) && Enabled(s, a)
    ensures Inv(Step(s, a))
  {
    hide Inv, Dedup;
    match a
    case Commit(id) => CommitKeepsInv(s, id);
    case ReadCursor(p) => ReadKeepsInv(s, p);
    case Fetch(p) => FetchKeepsInv(s, p);
    case PostOk(p) => PostKeepsInv(s, p);
    case PostLost(p) => StopKeepsInv(s, p);
    case PostTimedOut(p) => TimeoutKeepsInv(s, p);
    case Finish(p) => StopKeepsInv(s, p);
    case WriteCursor(p) => WriteKeepsInv(s, p);
    case Crash(p) => SetKeepsInv(s, p, Idle);
  }

  function Initial(): State { State([], 0, map[], []) }

  /** Over every run: what the consumer keeps is a prefix of the audit log in id
      order, and nothing at or below the persisted cursor is missing. */
  lemma {:induction false} NeverDropsNeverReorders(s: State, run: seq<Action>)
    requires Inv(s) && Runs(s, run)
    ensures var t := After(s, run);
      && Inv(t)
      && Dedup(t.received) <= t.outbox
      && forall id :: id in t.outbox && id <= t.cursor ==> id in t.received
    decreases |run|
  {
    if run == [] {
      forall id | id in s.outbox && id <= s.cursor ensures id in s.received {
        var i :| 0 <= i < |s.outbox| && s.outbox[i] == id;
        InPrefix(Dedup(s.received), s.outbox, i);
      }
    } else {
      InvStep(s, run[0]);
      NeverDropsNeverReorders(Step(s, run[0]), run[1..]);
    }
  }

  lemma FromTheStart(run: seq<Action>)
    requires Runs(Initial(), run)
    ensures var t := After(Initial(), run);
      && Dedup(t.received) <= t.outbox
      && (forall id :: id in t.outbox && id <= t.cursor ==> id in t.received)
      // Caught up: the consumer holds the whole audit log, in order.
      && (t.outbox != [] && t.cursor == t.outbox[|t.outbox| - 1] ==> Dedup(t.received) == t.outbox)
  {
    NeverDropsNeverReorders(Initial(), run);
    var t := After(Initial(), run);
    if t.outbox != [] && t.cursor == t.outbox[|t.outbox| - 1] {
      var kept, last := Dedup(t.received), |t.outbox| - 1;
      assert t.outbox[last] in kept;
      var i :| 0 <= i < |kept| && kept[i] == t.outbox[last];
      assert t.outbox[i] == t.outbox[last];
    }
  }

  /** The persisted cursor itself may move backwards when drainers overlap: a slow
      drainer writes an older position over a newer one. */
  lemma CursorMayMoveBack()
    ensures exists run: seq<Action>, a ::
      Runs(Initial(), run) && Enabled(After(Initial(), run), a)
      && Step(After(Initial(), run), a).cursor < After(Initial(), run).cursor
  {
    hide *;
    var run := Overlap();
    LateWrite();
    assert Runs(Initial(), run) && Enabled(After(Initial(), run), WriteCursor(0));
  }

  /** Exactly when one step moves it back: a drainer that delivered something writes a
      position older than the one another drainer has written meanwhile. */
  lemma MovesBackIff(s: State, a: Action)
    requires Enabled(s, a)
    ensures Step(s, a).cursor < s.cursor
       <==> a.WriteCursor? && s.At(a.p).lastOk != s.At(a.p).cursor && s.At(a.p).lastOk < s.cursor
  {
  }

  /** At most one drain is under way. */
  ghost predicate Lone(s: State) {
    forall p, q :: p in s.drainers && q in s.drainers && !s.drainers[p].Idle? && !s.drainers[q].Idle? ==> p == q
  }

  ghost predicate LoneRun(s: State, run: seq<Action>)
    requires Runs(s, run)
    decreases |run|
  {
    Lone(s) && (run != [] ==> LoneRun(Step(s, run[0]), run[1..]))
  }

  /** A drain that works from the cursor as it stands. */
  ghost predicate UpToDate(cursor: nat, d: Drainer) {
    match d
    case Idle => true
    case Opened(c) => c == cursor
    case Posting(c, rows, next) => c == cursor && next <= |rows| && forall j :: 0 <= j < |rows| ==> rows[j] > c
    case Stopped(c, lastOk) => c == cursor && lastOk >= c
  }

  ghost predicate AllUpToDate(s: State) {
    forall p :: p in s.drainers ==> UpToDate(s.cursor, s.drainers[p])
  }

  lemma SelectedAreLater(outbox: seq<nat>, c: nat)
    ensures forall j :: 0 <= j < |Selected(outbox, c)| ==> Selected(outbox, c)[j] > c
  {
  }

  lemma LoneStep(s: State, a: Action)
    requires Lone(s) && AllUpToDate(s) && Enabled(s, a)
    ensures AllUpToDate(Step(s, a)) && Step(s, a).cursor >= s.cursor
  {
    hide Selected;
    if a.Fetch? {
      SelectedAreLater(s.outbox, s.At(a.p).cursor);
    }
  }

  lemma {:induction false} LoneRunAdvances(s: State, run: seq<Action>)
    requires Runs(s, run) && LoneRun(s, run) && AllUpToDate(s)
    ensures AllUpToDate(After(s, run)) && After(s, run).cursor >= s.cursor
    decreases |run|
  {
    if run != [] {
      hide Step, Enabled, AllUpToDate, Lone;
      LoneStep(s, run[0]);
      LoneRunAdvances(Step(s, run[0]), run[1..]);
    }
  }

  /** While no two drains overlap the cursor only advances: over every run that never
      has two under way at once, from any point of it to any later one. */
  lemma LoneDrainerAdvances(run: seq<Action>, more: seq<Action>)
    requires Runs(Initial(), run) && LoneRun(Initial(), run)
    requires Runs(After(Initial(), run), more) && LoneRun(After(Initial(), run), more)
    ensures After(After(Initial(), run), more).cursor >= After(Initial(), run).cursor
  {
    LoneRunAdvances(Initial(), run);
    LoneRunAdvances(After(Initial(), run), more);
  }

  lemma Overlap() returns (run: seq<Action>)
    ensures Runs(Initial(), run)
    ensures After(Initial(), run) == State([1, 2], 2, map[0 := Stopped(0, 1), 1 := Idle], [1, 1, 2])
  {
    hide *;
    var slow := [Commit(1), ReadCursor(0), Fetch(0), PostOk(0), Finish(0)];
    var fast := [Commit(2), ReadCursor(1), Fetch(1)];
    var done := [PostOk(1), PostOk(1), Finish(1), WriteCursor(1)];
    SlowDrainer();
    FastDrainerStarts();
    RunsConcat(Initial(), slow, fast);
    FastDrainerEnds();
    RunsConcat(Initial(), slow + fast, done);
    run := slow + fast + done;
  }

  lemma LateWrite()
    ensures var s := State([1, 2], 2, map[0 := Stopped(0, 1), 1 := Idle], [1, 1, 2]);
      Enabled(s, WriteCursor(0)) && Step(s, WriteCursor(0)).cursor == 1
  {
  }

  lemma SlowDrainer()
    ensures var run := [Commit(1), ReadCursor(0), Fetch(0), PostOk(0), Finish(0)];
      Runs(Initial(), run) && After(Initial(), run) == State([1], 0, map[0 := Stopped(0, 1)], [1])
  {
    assert Selected([1], 0) == [1];
    Chain([Initial(), State([1], 0, map[], []), State([1], 0, map[0 := Opened(0)], []),
           State([1], 0, map[0 := Posting(0, [1], 0)], []), State([1], 0, map[0 := Posting(0, [1], 1)], [1]),
           State([1], 0, map[0 := Stopped(0, 1)], [1])],
          [Commit(1), ReadCursor(0), Fetch(0), PostOk(0), Finish(0)]);
  }

  lemma FastDrainerStarts()
    ensures var s, run := State([1], 0, map[0 := Stopped(0, 1)], [1]), [Commit(2), ReadCursor(1), Fetch(1)];
      Runs(s, run) && After(s, run) == State([1, 2], 0, map[0 := Stopped(0, 1), 1 := Posting(0, [1, 2], 0)], [1])
  {
    var d := Stopped(0, 1);
    FirstAfterNone([1, 2]);
    assert Selected([1, 2], 0) == [1, 2];
    Chain([State([1], 0, map[0 := d], [1]), State([1, 2], 0, map[0 := d], [1]),
           State([1, 2], 0, map[0 := d, 1 := Opened(0)], [1]),
           State([1, 2], 0, map[0 := d, 1 := Posting(0, [1, 2], 0)], [1])],
          [Commit(2), ReadCursor(1), Fetch(1)]);
  }

  lemma FastDrainerEnds()
    ensures var s := State([1, 2], 0, map[0 := Stopped(0, 1), 1 := Posting(0, [1, 2], 0)], [1]);
      var run := [PostOk(1), PostOk(1), Finish(1), WriteCursor(1)];
      Runs(s, run) && After(s, run) == State([1, 2], 2, map[0 := Stopped(0, 1), 1 := Idle], [1, 1, 2])
  {
    var d := Stopped(0, 1);
    Chain([State([1, 2], 0, map[0 := d, 1 := Posting(0, [1, 2], 0)], [1]),
           State([1, 2], 0, map[0 := d, 1 := Posting(0, [1, 2], 1)], [1, 1]),
           State([1, 2], 0, map[0 := d, 1 := Posting(0, [1, 2], 2)], [1, 1, 2]),
           State([1, 2], 0, map[0 := d, 1 := Stopped(0, 2)], [1, 1, 2]),
           State([1, 2], 2, map[0 := d, 1 := Idle], [1, 1, 2])],
          [PostOk(1), PostOk(1), Finish(1), WriteCursor(1)]);
  }

  lemma FirstAfterNone(outbox: seq<nat>)
    requires forall i :: 0 <= i < |outbox| ==> outbox[i] > 0
    ensures FirstAfter(outbox, 0) == 0
  {
  }

  /** A list of states in which each follows from the one before is a run. */
  lemma Chain(states: seq<State>, run: seq<Action>)
    requires |states| == |run| + 1
    requires forall i :: 0 <= i < |run| ==> Enabled(states[i], run[i]) && states[i + 1] == Step(states[i], run[i])
    ensures Runs(states[0], run) && After(states[0], run) == states[|run|]
    decreases |run|
  {
    if run != [] {
      Chain(states[1..], run[1..]);
    }
  }

  lemma {:induction false} RunsConcat(s: State, a: seq<Action>, b: seq<Action>)
    requires Runs(s, a) && Runs(After(s, a), b)
    ensures Runs(s, a + b) && After(s, a + b) == After(After(s, a), b)
    decreases |a|
  {
    if a == [] {
      assert a + b == b;
    } else {
      assert (a + b)[0] == a[0] && (a + b)[1..] == a[1..] + b;
      RunsConcat(Step(s, a[0]), a[1..], b);
    }
  }

  // ---------------------------------------------------------------------
  // Progress
  // ---------------------------------------------------------------------

  /** The drainer p works, with no failure, and nobody else does; nothing is committed. */
  ghost predicate OnlyDrains(run: seq<Action>, p: Pid) {
    forall i :: 0 <= i < |run| ==> run[i] in {ReadCursor(p), Fetch(p), PostOk(p), Finish(p), WriteCursor(p)}
  }

  /** The passes that came to their end. */
  function Passes(run: seq<Action>): nat {
    if run == [] then 0 else (if run[0].WriteCursor? then 1 else 0) + Passes(run[1..])
  }

  /** A pass under way fetches, posts and will note what is due from the cursor as it
      stands. */
  ghost predicate OnCourse(outbox: seq<nat>, cursor: nat, d: Drainer) {
    var due := Selected(outbox, cursor);
    match d
    case Idle => true
    case Opened(c) => c == cursor
    case Posting(c, rows, next) => c == cursor && rows == due && next <= |rows|
    case Stopped(c, lastOk) => c == cursor && lastOk == if due == [] then c else due[|due| - 1]
  }

  lemma DrainStep(s: State, a: Action, p: Pid)
    requires Ordered(s.outbox) && OnCourse(s.outbox, s.cursor, s.At(p)) && Enabled(s, a)
    requires a in {ReadCursor(p), Fetch(p), PostOk(p), Finish(p), WriteCursor(p)}
    ensures
      var t, m := Step(s, a), |Above(s.outbox, s.cursor)|;
      && t.outbox == s.outbox && OnCourse(t.outbox, t.cursor, t.At(p))
      && |Above(t.outbox, t.cursor)| == if a.WriteCursor? then m - Min(200, m) else m
  {
    hide Ordered, Above, Selected;
    var due := Selected(s.outbox, s.cursor);
    SelectedLeast(s.outbox, s.cursor);
    if a.WriteCursor? && due != [] {
      FewerAbove(s.outbox, s.cursor, |due|);
    }
  }

  lemma {:induction false} DrainRun(s: State, run: seq<Action>, p: Pid)
    requires Ordered(s.outbox) && OnCourse(s.outbox, s.cursor, s.At(p)) && Runs(s, run) && OnlyDrains(run, p)
    ensures
      var t, m := After(s, run), |Above(s.outbox, s.cursor)|;
      t.outbox == s.outbox && |Above(t.outbox, t.cursor)| == if m <= 200 * Passes(run) then 0 else m - 200 * Passes(run)
    decreases |run|
  {
    if run != [] {
      hide Step, Enabled, Ordered, OnCourse, Above;
      DrainStep(s, run[0], p);
      assert forall i :: 0 <= i < |run[1..]| ==> run[1..][i] == run[i + 1];
      DrainRun(Step(s, run[0]), run[1..], p);
    }
  }

  /** The outbox drains: from any reachable state with m rows beyond the cursor, k passes
      of one drainer without a failure, and nothing else going on, leave m - 200k of them;
      and when these are all, the cursor is at the last row and the consumer holds the
      whole log, in order. */
  lemma Drains(before: seq<Action>, run: seq<Action>, p: Pid)
    requires Runs(Initial(), before)
    requires var s := After(Initial(), before); s.At(p).Idle? && Runs(s, run) && OnlyDrains(run, p)
    ensures
      var s := After(Initial(), before);
      var t, m := After(s, run), |Above(s.outbox, s.cursor)|;
      && t.outbox == s.outbox
      && |Above(t.outbox, t.cursor)| == (if m <= 200 * Passes(run) then 0 else m - 200 * Passes(run))
      && (m <= 200 * Passes(run) ==>
            Dedup(t.received) == t.outbox && (t.outbox != [] ==> t.cursor == t.outbox[|t.outbox| - 1]))
  {
    hide Runs, After, Inv, Above, OnlyDrains, Ordered, Dedup;
    var s := After(Initial(), before);
    InitialInv();
    NeverDropsNeverReorders(Initial(), before);
    NeverDropsNeverReorders(s, run);
    IdleOnCourse(s, p);
    DrainRun(s, run, p);
    var t := After(s, run);
    if |Above(t.outbox, t.cursor)| == 0 { CaughtUp(t); }
  }

  lemma InitialInv()
    ensures Inv(Initial())
  {
  }

  lemma IdleOnCourse(s: State, p: Pid)
    requires Inv(s) && s.At(p).Idle?
    ensures Ordered(s.outbox) && OnCourse(s.outbox, s.cursor, s.At(p))
  {
    hide Dedup;
  }

  lemma CaughtUp(t: State)
    requires Inv(t) && Above(t.outbox, t.cursor) == {}
    requires forall id :: id in t.outbox && id <= t.cursor ==> id in t.received
    ensures Dedup(t.received) == t.outbox
    ensures t.outbox != [] ==> t.cursor == t.outbox[|t.outbox| - 1]
  {
    var kept := Dedup(t.received);
    if t.outbox != [] {
      var last := t.outbox[|t.outbox| - 1];
      assert last !in Above(t.outbox, t.cursor) && last <= t.cursor;
      assert last in t.received && last in kept;
      var i :| 0 <= i < |kept| && kept[i] == last;
      assert t.outbox[i] == last;
    }
  }

  // ---------------------------------------------------------------------
  // drain_once
  // ---------------------------------------------------------------------

  datatype Outcome = Ok | Lost | TimedOut

  /** How many of the posts 0, 1, ... succeed before the first that does not. */
  function Successes(net: nat -> Outcome, n: nat): (k: nat)
    ensures k <= n
    ensures forall i :: 0 <= i < k ==> net(i).Ok?
    ensures k < n ==> !net(k).Ok?
  {
    if n == 0 then 0
    else
      var k := Successes(net, n - 1);
      if k < n - 1 || !net(n - 1).Ok? then k else n
  }

  lemma {:induction false} RunSnoc(s: State, run: seq<Action>, a: Action)
    requires Runs(s, run) && Enabled(After(s, run), a)
    ensures Runs(s, run + [a]) && After(s, run + [a]) == Step(After(s, run), a)
  {
    assert Runs(After(s, run), [a]);
    RunsConcat(s, run, [a]);
  }

  // What each action of a lone drainer does, on the explicit state.

  lemma NoActions(s: State)
    ensures Runs(s, []) && After(s, []) == s
  {
  }

  lemma PostSteps(s: State, c: nat, rows: seq<nat>, i: nat)
    requires s.drainers == map[0 := Posting(c, rows, i)] && i < |rows|
    ensures Enabled(s, PostOk(0)) && Step(s, PostOk(0))
         == State(s.outbox, s.cursor, map[0 := Posting(c, rows, i + 1)], s.received + [rows[i]])
    ensures Enabled(s, PostLost(0)) && Step(s, PostLost(0))
         == State(s.outbox, s.cursor, map[0 := Stopped(c, LastOk(Posting(c, rows, i)))], s.received)
    ensures Enabled(s, PostTimedOut(0)) && Step(s, PostTimedOut(0))
         == State(s.outbox, s.cursor, map[0 := Stopped(c, LastOk(Posting(c, rows, i)))], s.received + [rows[i]])
  {
  }

  lemma FinishSteps(s: State, c: nat, rows: seq<nat>)
    requires s.drainers == map[0 := Posting(c, rows, |rows|)]
    ensures Enabled(s, Finish(0)) && Step(s, Finish(0))
         == State(s.outbox, s.cursor, map[0 := Stopped(c, LastOk(Posting(c, rows, |rows|)))], s.received)
  {
  }

  lemma WriteSteps(s: State, c: nat, lastOk: nat)
    requires s.drainers == map[0 := Stopped(c, lastOk)]
    ensures Enabled(s, WriteCursor(0)) && Step(s, WriteCursor(0))
         == State(s.outbox, if lastOk != c then lastOk else s.cursor, map[0 := Idle], s.received)
  {
  }

  /** The tables one pass works on, and the endpoint it posts to. */
  class Outbox {
    var rows: seq<nat>
    var cursor: nat
    var received: seq<nat>

    ghost function With(d: Drainer): State
      reads this
    {
      State(rows, cursor, map[0 := d], received)
    }

    /** Post one event; the endpoint may have it even when the caller is told no. */
    method Post(id: nat, outcome: Outcome) returns (ok: bool)
      modifies this`received
      ensures ok == outcome.Ok?
      ensures received == if outcome.Lost? then old(received) else old(received) + [id]
    {
      if !outcome.Lost? {
        received := received + [id];
      }
      ok := outcome.Ok?;
    }

    /** The loop over the selected rows, left at the first post reported as failed. */
    method PostRows(c: nat, selected: seq<nat>, net: nat -> Outcome) returns (delivered: nat, ok: bool, ghost run: seq<Action>)
      modifies this`received
      ensures delivered == Successes(net, |selected|)
      ensures ok <==> delivered == |selected|
      ensures received == old(received) + selected[..delivered]
                          + (if !ok && net(delivered).TimedOut? then [selected[delivered]] else [])
      ensures Runs(old(With(Posting(c, selected, 0))), run)
      ensures After(old(With(Posting(c, selected, 0))), run) == With(Stopped(c, LastOk(Posting(c, selected, delivered))))
    {
      hide Step, Enabled, Runs, After;
      ghost var s0 := With(Posting(c, selected, 0));
      delivered, ok, run := 0, true, [];
      NoActions(s0);
      while delivered < |selected|
        invariant delivered <= Successes(net, |selected|)
        invariant received == old(received) + selected[..delivered]
        invariant Runs(s0, run) && After(s0, run) == With(Posting(c, selected, delivered))
      {
        PostSteps(With(Posting(c, selected, delivered)), c, selected, delivered);
        ok := Post(selected[delivered], net(delivered));
        if !ok {
          ghost var a := if net(delivered).Lost? then PostLost(0) else PostTimedOut(0);
          RunSnoc(s0, run, a);
          run := run + [a];
          return;
        }
        RunSnoc(s0, run, PostOk(0));
        run := run + [PostOk(0)];
        delivered := delivered + 1;
      }
      FinishSteps(With(Posting(c, selected, delivered)), c, selected);
      RunSnoc(s0, run, Finish(0));
      run := run + [Finish(0)];
    }

    /** Post the selected rows, and move the cursor to the last that went well. */
    method Deliver(selected: seq<nat>, net: nat -> Outcome) returns (delivered: nat, lastOk: nat, ok: bool, ghost run: seq<Action>)
      requires selected == Selected(rows, cursor)
      modifies this`cursor, this`received
      ensures Runs(old(With(Idle)), run) && After(old(With(Idle)), run) == With(Idle)
      ensures delivered == Successes(net, |selected|)
      ensures ok <==> delivered == |selected|
      ensures cursor == lastOk == if delivered == 0 then old(cursor) else selected[delivered - 1]
      ensures received == old(received) + selected[..delivered]
                          + (if !ok && net(delivered).TimedOut? then [selected[delivered]] else [])
    {
      hide Step, Enabled, Runs, After, Selected, Successes;
      ghost var s0 := With(Idle);
      var c := cursor;
      ghost var begun := With(Posting(c, selected, 0));
      delivered, ok, run := PostRows(c, selected, net);
      lastOk := LastOk(Posting(c, selected, delivered));
      ghost var stopped := With(Stopped(c, lastOk));
      if lastOk != c {
        cursor := lastOk;
      }
      WholePass(s0, c, begun, run, stopped, lastOk);
      run := [ReadCursor(0), Fetch(0)] + (run + [WriteCursor(0)]);
    }

    /** One pass. `run` is the same pass as a run of the protocol above, so what
        holds of every run holds of it; the other clauses say what it did. */
    method DrainOnce(enabled: bool, net: nat -> Outcome)
      returns (delivered: nat, pending: nat, ok: bool, ghost run: seq<Action>, ghost due: seq<nat>)
      modifies this`cursor, this`received
      ensures Runs(old(With(Idle)), run) && After(old(With(Idle)), run) == With(Idle)
      ensures !enabled ==> run == [] && delivered == 0 && pending == 0 && ok
      ensures enabled ==>
        && delivered == Successes(net, |due|)
        && (ok <==> delivered == |due|)
        && cursor == (if delivered == 0 then old(cursor) else due[delivered - 1])
        && received == old(received) + due[..delivered]
                       + (if !ok && net(delivered).TimedOut? then [due[delivered]] else [])
      // The rows that are due are the least ids beyond the cursor, 200 at most.
      ensures enabled && Ordered(rows) ==>
        LeastAbove(due, rows, old(cursor), 200) && pending == |Above(rows, old(cursor))| - delivered
    {
      delivered, pending, ok, run, due := 0, 0, true, [], [];
      if !enabled {
        return;
      }
      hide Step, Enabled, Runs, After, Selected, FirstAfter, Ordered, Above, LeastAbove, Successes;
      var c, selected := cursor, Selected(rows, cursor);
      due := selected;
      var lastOk;
      delivered, lastOk, ok, run := Deliver(selected, net);
      pending := |rows| - FirstAfter(rows, lastOk);
      if Ordered(rows) { StillPending(rows, c, delivered); }
    }
  }

  lemma WholePass(s: State, c: nat, begun: State, posts: seq<Action>, stopped: State, lastOk: nat)
    requires s.cursor == c && s.drainers == map[0 := Idle]
    requires begun == s.(drainers := map[0 := Posting(c, Selected(s.outbox, c), 0)])
    requires Runs(begun, posts) && After(begun, posts) == stopped
    requires stopped.drainers == map[0 := Stopped(c, lastOk)] && stopped.cursor == c
    ensures
      var run := [ReadCursor(0), Fetch(0)] + (posts + [WriteCursor(0)]);
      Runs(s, run) && After(s, run) == State(stopped.outbox, lastOk, map[0 := Idle], stopped.received)
  {
    hide Step, Enabled, Runs, After, Selected;
    StartOfPass(s, c, begun);
    WriteSteps(stopped, c, lastOk);
    RunSnoc(begun, posts, WriteCursor(0));
    RunsConcat(s, [ReadCursor(0), Fetch(0)], posts + [WriteCursor(0)]);
  }

  lemma StartOfPass(s: State, c: nat, begun: State)
    requires s.cursor == c && s.drainers == map[0 := Idle]
    requires begun == s.(drainers := map[0 := Posting(c, Selected(s.outbox, c), 0)])
    ensures Runs(s, [ReadCursor(0), Fetch(0)]) && After(s, [ReadCursor(0), Fetch(0)]) == begun
  {
    var s1 := Step(s, ReadCursor(0));
    assert s1.At(0) == Opened(c);
    assert Step(s1, Fetch(0)) == begun;
    Chain([s, s1, begun], [ReadCursor(0), Fetch(0)]);
  }
}
