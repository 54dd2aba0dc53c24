/** Bulk import of a feed into the indicator store: deduplication in memory, a chunked
    existence probe, one bulk insert, and a budget of alerts shared by the
    sub-batches. Normalising one indicator is abstract: an item is the row it would
    become, or `None` when it is skipped. */
module BulkImport {
  import opened Collections
  import opened Options

  /** A stored indicator; the empty family is a blank. Values are not unique in the
      table itself. */
  datatype Row = Row(value: string, kind: string, severity: string, confidence: int, source: string, family: string)

  type Item = Option<Row>

  const MAX_ALERTS: nat := 10
  const EXISTS_CHUNK: nat := 900

  // ---------------------------------------------------------------------
  // What an import means
  // ---------------------------------------------------------------------

  function Values(rows: seq<Row>): set<string> {
    set i | 0 <= i < |rows| :: rows[i].value
  }

  /** The rows a feed adds to a store that holds the given values: those whose value
      is not stored and did not come before in the feed. */
  function News(stored: set<string>, feed: seq<Item>): seq<Row> {
    if feed == [] then []
    else
      var init, last := News(stored, feed[..|feed| - 1]), feed[|feed| - 1];
      if last.None? || last.value.value in stored || last.value.value in Values(init) then init else init + [last.value]
  }

  function Skipped(feed: seq<Item>): nat {
    if feed == [] then 0 else Skipped(feed[..|feed| - 1]) + if feed[|feed| - 1].None? then 1 else 0
  }

  function Alertable(rows: seq<Row>, minConfidence: int): seq<Row> {
    if rows == [] then []
    else
      var init, last := Alertable(rows[..|rows| - 1], minConfidence), rows[|rows| - 1];
      if last.severity == "critical" && last.confidence >= minConfidence then init + [last] else init
  }

  function Take(rows: seq<Row>, n: nat): seq<Row> {
    if |rows| <= n then rows else rows[..n]
  }

  lemma ValuesConcat(a: seq<Row>, b: seq<Row>)
    ensures Values(a + b) == Values(a) + Values(b)
  {
    forall v | v in Values(a) + Values(b) ensures v in Values(a + b) {
      if v in Values(a) {
        var i :| 0 <= i < |a| && a[i].value == v;
        assert (a + b)[i].value == v;
      } else {
        var i :| 0 <= i < |b| && b[i].value == v;
        assert (a + b)[|a| + i].value == v;
      }
    }
  }

  lemma ValueAt(rows: seq<Row>, i: nat)
    requires i < |rows|
    ensures rows[i].value in Values(rows)
  {
  }

  ghost predicate DistinctValues(rows: seq<Row>) {
    forall i, j :: 0 <= i < j < |rows| ==> rows[i].value != rows[j].value
  }

  /** The new rows are new to the store and have distinct values. */
  lemma {:induction false} NewsAreNew(stored: set<string>, feed: seq<Item>)
    ensures Values(News(stored, feed)) !! stored
    ensures DistinctValues(News(stored, feed))
  {
    if feed != [] {
      var init, last := News(stored, feed[..|feed| - 1]), feed[|feed| - 1];
      NewsAreNew(stored, feed[..|feed| - 1]);
      if last.Some? {
        ValuesConcat(init, [last.value]);
        forall i | 0 <= i < |init| ensures init[i].value in Values(init) { ValueAt(init, i); }
      }
    }
  }

  /** The first item of its value, if it is not skipped. */
  ghost predicate FirstOfItsValue(feed: seq<Item>, i: nat)
    requires i < |feed|
  {
    feed[i].Some? && forall j :: 0 <= j < i ==> feed[j].None? || feed[j].value.value != feed[i].value.value
  }

  lemma FirstInLonger(init: seq<Item>, feed: seq<Item>, i: nat)
    requires i < |init| < |feed| && init == feed[..|init|]
    ensures FirstOfItsValue(feed, i) <==> FirstOfItsValue(init, i)
  {
    assert forall j :: 0 <= j <= i ==> init[j] == feed[j];
  }

  lemma NewsLast(stored: set<string>, feed: seq<Item>)
    requires feed != []
    ensures
      var init, last := News(stored, feed[..|feed| - 1]), feed[|feed| - 1];
      News(stored, feed) == if last.None? || last.value.value in stored || last.value.value in Values(init) then init
                            else init + [last.value]
  {
  }

  /** The first occurrences of values the store does not hold are all added, ... */
  lemma {:induction false} FirstsAreNews(stored: set<string>, feed: seq<Item>, i: nat)
    requires i < |feed| && FirstOfItsValue(feed, i) && feed[i].value.value !in stored
    ensures feed[i].value in News(stored, feed)
  {
    hide News, Values, FirstOfItsValue;
    var init := feed[..|feed| - 1];
    NewsLast(stored, feed);
    if i < |init| {
      FirstInLonger(init, feed, i);
      FirstsAreNews(stored, init, i);
    } else {
      FirstIsSome(feed, i);
      if feed[i].value.value in Values(News(stored, init)) {
        SeenBefore(stored, init, feed[i].value.value);
        NotFirst(feed, i);
      }
    }
  }

  lemma FirstIsSome(feed: seq<Item>, i: nat)
    requires i < |feed| && FirstOfItsValue(feed, i)
    ensures feed[i].Some?
  {
  }

  lemma NotFirst(feed: seq<Item>, i: nat)
    requires i < |feed| && feed[i].Some?
    requires exists j :: 0 <= j < i && feed[..i][j].Some? && feed[..i][j].value.value == feed[i].value.value
    ensures !FirstOfItsValue(feed, i)
  {
    var j :| 0 <= j < i && feed[..i][j].Some? && feed[..i][j].value.value == feed[i].value.value;
    assert feed[j] == feed[..i][j];
  }

  /** ... and nothing else is. */
  lemma {:induction false} NewsAreFirsts(stored: set<string>, feed: seq<Item>, r: Row) returns (i: nat)
    requires r in News(stored, feed)
    ensures i < |feed| && FirstOfItsValue(feed, i) && feed[i].value == r && r.value !in stored
  {
    hide News, Values, FirstOfItsValue;
    if feed == [] {
      NoNews(stored);
    }
    var init := feed[..|feed| - 1];
    NewsLast(stored, feed);
    if r in News(stored, init) {
      i := NewsAreFirsts(stored, init, r);
      FirstInLonger(init, feed, i);
    } else {
      i := |init|;
      NotSeenIsFirst(stored, feed);
    }
  }

  lemma NoNews(stored: set<string>)
    ensures News(stored, []) == []
  {
  }

  lemma {:induction false} SeenBefore(stored: set<string>, feed: seq<Item>, v: string)
    requires v in Values(News(stored, feed))
    ensures exists j :: 0 <= j < |feed| && feed[j].Some? && feed[j].value.value == v
  {
    var init := feed[..|feed| - 1];
    if v in Values(News(stored, init)) {
      SeenBefore(stored, init, v);
      var j :| 0 <= j < |init| && init[j].Some? && init[j].value.value == v;
      assert feed[j] == init[j];
    } else {
      ValuesConcat(News(stored, init), [feed[|feed| - 1].value]);
      assert feed[|feed| - 1].value.value == v;
    }
  }

  /** A value that occurred is either stored or among the new ones. */
  lemma {:induction false} Accounted(stored: set<string>, feed: seq<Item>, j: nat)
    requires j < |feed| && feed[j].Some?
    ensures feed[j].value.value in stored || feed[j].value.value in Values(News(stored, feed))
  {
    var init, last := feed[..|feed| - 1], feed[|feed| - 1];
    ValuesConcat(News(stored, init), if last.Some? then [last.value] else []);
    if j < |init| {
      Accounted(stored, init, j);
    } else if feed[j].value.value !in stored && feed[j].value.value !in Values(News(stored, init)) {
      ValueAt([last.value], 0);
    }
  }

  lemma NotSeenIsFirst(stored: set<string>, feed: seq<Item>)
    requires feed != [] && feed[|feed| - 1].Some?
    requires feed[|feed| - 1].value.value !in stored
    requires feed[|feed| - 1].value.value !in Values(News(stored, feed[..|feed| - 1]))
    ensures FirstOfItsValue(feed, |feed| - 1)
  {
    var init, last := feed[..|feed| - 1], feed[|feed| - 1];
    forall j | 0 <= j < |init| ensures feed[j].None? || feed[j].value.value != last.value.value {
      if feed[j].Some? { Accounted(stored, init, j); }
    }
  }

  /** Importing two parts of a feed one after the other adds the same rows as
      importing the whole. */
  lemma {:induction false} NewsConcat(stored: set<string>, a: seq<Item>, b: seq<Item>)
    ensures News(stored, a + b) == News(stored, a) + News(stored + Values(News(stored, a)), b)
  {
    var first := News(stored, a);
    if b == [] {
      assert a + b == a && News(stored + Values(first), []) == [];
    } else {
      var init, last := b[..|b| - 1], b[|b| - 1];
      NewsConcat(stored, a, init);
      assert (a + b)[..|a + b| - 1] == a + init && (a + b)[|a + b| - 1] == last;
      var rest := News(stored + Values(first), init);
      ValuesConcat(first, rest);
      if last.Some? {
        assert first + (rest + [last.value]) == first + rest + [last.value];
      }
    }
  }

  lemma {:induction false} SkippedConcat(a: seq<Item>, b: seq<Item>)
    ensures Skipped(a + b) == Skipped(a) + Skipped(b)
  {
    if b == [] {
      assert a + b == a;
    } else {
      SkippedConcat(a, b[..|b| - 1]);
      assert (a + b)[..|a + b| - 1] == a + b[..|b| - 1];
    }
  }

  lemma {:induction false} AlertableConcat(a: seq<Row>, b: seq<Row>, minConfidence: int)
    ensures Alertable(a + b, minConfidence) == Alertable(a, minConfidence) + Alertable(b, minConfidence)
  {
    if b == [] {
      assert a + b == a && Alertable(b, minConfidence) == [];
      assert Alertable(a, minConfidence) + [] == Alertable(a, minConfidence);
    } else {
      AlertableConcat(a, b[..|b| - 1], minConfidence);
      assert (a + b)[..|a + b| - 1] == a + b[..|b| - 1];
    }
  }

  /** What the first part used of a budget is missing to the second. */
  lemma TakeConcat(a: seq<Row>, b: seq<Row>, n: nat)
    ensures |Take(a, n)| <= n
    ensures Take(a + b, n) == Take(a, n) + Take(b, n - |Take(a, n)|)
  {
  }

  // ---------------------------------------------------------------------
  // Families
  // ---------------------------------------------------------------------

  /** The family that the batch asserts for a value: that of its first item. */
  function FamilyIn(feed: seq<Item>, v: string): string {
    if feed == [] then ""
    else if feed[0].Some? && feed[0].value.value == v then feed[0].value.family
    else FamilyIn(feed[1..], v)
  }

  /** A family already there is never overwritten. */
  function Prefer(have: string, offered: string): string {
    if have != "" then have else offered
  }

  function Filled(rows: seq<Row>, feed: seq<Item>): (after: seq<Row>)
    ensures |after| == |rows|
  {
    seq(|rows|, i requires 0 <= i < |rows| => rows[i].(family := Prefer(rows[i].family, FamilyIn(feed, rows[i].value))))
  }

  /** The store after one batch: blanks filled, new rows added at the end. */
  function AfterBatch(rows: seq<Row>, feed: seq<Item>): seq<Row> {
    Filled(rows, feed) + News(Values(rows), feed)
  }

  /** How many rows one batch gives a family. */
  function Attributed(rows: seq<Row>, feed: seq<Item>): nat {
    if rows == [] then 0
    else
      var last := rows[|rows| - 1];
      Attributed(rows[..|rows| - 1], feed) + if last.family == "" && FamilyIn(feed, last.value) != "" then 1 else 0
  }

  lemma {:induction false} FamilyOfAbsent(feed: seq<Item>, v: string)
    requires forall j :: 0 <= j < |feed| && feed[j].Some? ==> feed[j].value.value != v
    ensures FamilyIn(feed, v) == ""
  {
    if feed != [] {
      FamilyOfAbsent(feed[1..], v);
    }
  }

  lemma {:induction false} FamilyOfFirst(feed: seq<Item>, i: nat)
    requires i < |feed| && FirstOfItsValue(feed, i)
    ensures FamilyIn(feed, feed[i].value.value) == feed[i].value.family
  {
    if i > 0 {
      var tail := feed[1..];
      assert FirstOfItsValue(tail, i - 1) by {
        assert forall j :: 0 <= j < i - 1 ==> tail[j] == feed[j + 1];
      }
      FamilyOfFirst(tail, i - 1);
    }
  }

  /** A new row carries the family its batch asserts. */
  lemma FamilyOfNew(stored: set<string>, feed: seq<Item>, r: Row)
    requires r in News(stored, feed)
    ensures FamilyIn(feed, r.value) == r.family
  {
    hide News, FamilyIn, FirstOfItsValue;
    var i := NewsAreFirsts(stored, feed, r);
    FamilyOfFirst(feed, i);
  }

  lemma FamilyOfOther(stored: set<string>, feed: seq<Item>, v: string)
    requires v !in stored && v !in Values(News(stored, feed))
    ensures FamilyIn(feed, v) == ""
  {
    hide News, FamilyIn;
    forall j | 0 <= j < |feed| && feed[j].Some? ensures feed[j].value.value != v {
      Accounted(stored, feed, j);
    }
    FamilyOfAbsent(feed, v);
  }

  // ---------------------------------------------------------------------
  // _import
  // ---------------------------------------------------------------------

  /** Deduplicating in memory and then dropping what is stored. */
  function NotIn(rows: seq<Row>, stored: set<string>): seq<Row> {
    if rows == [] then []
    else
      var init, last := NotIn(rows[..|rows| - 1], stored), rows[|rows| - 1];
      if last.value in stored then init else init + [last]
  }

  lemma {:induction false} NotInSnoc(rows: seq<Row>, r: Row, stored: set<string>)
    ensures NotIn(rows + [r], stored) == if r.value in stored then NotIn(rows, stored) else NotIn(rows, stored) + [r]
  {
    assert (rows + [r])[..|rows|] == rows;
  }

  lemma {:induction false} NotInValues(rows: seq<Row>, stored: set<string>)
    ensures Values(NotIn(rows, stored)) == Values(rows) - stored
  {
    if rows == [] {
    } else {
      hide Values;
      var init, last := rows[..|rows| - 1], rows[|rows| - 1];
      NotInValues(init, stored);
      ValuesConcat(init, [last]);
      ValuesConcat(NotIn(init, stored), [last]);
      assert init + [last] == rows;
      OneValue(last);
    }
  }

  lemma OneValue(r: Row)
    ensures Values([r]) == {r.value}
  {
    ValueAt([r], 0);
  }

  lemma {:induction false} NewsByFilter(stored: set<string>, feed: seq<Item>)
    ensures News(stored, feed) == NotIn(News({}, feed), stored)
  {
    if feed != [] {
      hide Values, NotIn;
      var init, last := feed[..|feed| - 1], feed[|feed| - 1];
      NewsByFilter(stored, init);
      NotInValues(News({}, init), stored);
      if last.Some? {
        NotInSnoc(News({}, init), last.value, stored);
      }
    } else {
      assert NotIn([], stored) == [];
    }
  }

  /** Only the values that were asked for matter to the filter. */
  lemma {:induction false} NotInRestricted(rows: seq<Row>, stored: set<string>, asked: set<string>)
    requires Values(rows) <= asked
    ensures NotIn(rows, stored * asked) == NotIn(rows, stored)
  {
    if rows != [] {
      var init, last := rows[..|rows| - 1], rows[|rows| - 1];
      ValueAt(rows, |rows| - 1);
      assert forall i :: 0 <= i < |init| ==> init[i] == rows[i];
      NotInRestricted(init, stored, asked);
    }
  }

  function Blank(rows: seq<Row>): set<string> {
    set i | 0 <= i < |rows| && rows[i].family == "" :: rows[i].value
  }

  /** `UPDATE iocs SET malware_family = fam WHERE value IN part AND` it is blank. */
  function Updated(rows: seq<Row>, fam: string, part: seq<string>): seq<Row> {
    seq(|rows|, i requires 0 <= i < |rows| =>
      if rows[i].family == "" && rows[i].value in part then rows[i].(family := fam) else rows[i])
  }

  function RowCount(rows: seq<Row>, part: seq<string>): nat {
    if rows == [] then 0
    else
      var last := rows[|rows| - 1];
      RowCount(rows[..|rows| - 1], part) + if last.family == "" && last.value in part then 1 else 0
  }

  /** The fills done so far: of the rows with these values. */
  ghost function FilledIn(rows: seq<Row>, feed: seq<Item>, done: set<string>): (after: seq<Row>)
    ensures |after| == |rows|
  {
    seq(|rows|, i requires 0 <= i < |rows| =>
      if rows[i].value in done then rows[i].(family := Prefer(rows[i].family, FamilyIn(feed, rows[i].value))) else rows[i])
  }

  ghost function AttributedIn(rows: seq<Row>, done: set<string>): nat {
    if rows == [] then 0
    else
      var last := rows[|rows| - 1];
      AttributedIn(rows[..|rows| - 1], done) + if last.family == "" && last.value in done then 1 else 0
  }

  /** Each of the values gets this family from the batch. */
  ghost predicate Offered(feed: seq<Item>, fam: string, part: seq<string>) {
    fam != "" && forall k :: 0 <= k < |part| ==> FamilyIn(feed, part[k]) == fam
  }

  lemma UpdateIsFill(rows: seq<Row>, feed: seq<Item>, done: set<string>, fam: string, part: seq<string>)
    requires Offered(feed, fam, part)
    ensures Updated(FilledIn(rows, feed, done), fam, part) == FilledIn(rows, feed, done + ToSet(part))
  {
    hide FamilyIn;
    var now, after := FilledIn(rows, feed, done), FilledIn(rows, feed, done + ToSet(part));
    var updated := Updated(now, fam, part);
    forall i | 0 <= i < |rows| ensures updated[i] == after[i] {
      if rows[i].value in part {
        var k :| 0 <= k < |part| && part[k] == rows[i].value;
        assert FamilyIn(feed, rows[i].value) == fam;
      }
    }
  }

  lemma {:induction false} UpdateCounts(rows: seq<Row>, feed: seq<Item>, done: set<string>, part: seq<string>)
    requires forall v :: v in done ==> FamilyIn(feed, v) != ""
    ensures AttributedIn(rows, done + ToSet(part)) == AttributedIn(rows, done) + RowCount(FilledIn(rows, feed, done), part)
  {
    if rows != [] {
      hide FamilyIn;
      var init := rows[..|rows| - 1];
      var now := FilledIn(rows, feed, done);
      assert now[..|now| - 1] == FilledIn(init, feed, done);
      UpdateCounts(init, feed, done, part);
    }
  }

  lemma {:induction false} AllAttributed(rows: seq<Row>, feed: seq<Item>, done: set<string>)
    requires forall v :: v in done ==> FamilyIn(feed, v) != ""
    requires forall v :: v in Blank(rows) && FamilyIn(feed, v) != "" ==> v in done
    ensures AttributedIn(rows, done) == Attributed(rows, feed)
  {
    if rows != [] {
      hide FamilyIn;
      var init, last := rows[..|rows| - 1], rows[|rows| - 1];
      assert forall v :: v in Blank(init) ==> v in Blank(rows) by {
        forall v | v in Blank(init) ensures v in Blank(rows) {
          var i :| 0 <= i < |init| && init[i].family == "" && init[i].value == v;
          assert rows[i] == init[i];
        }
      }
      AllAttributed(init, feed, done);
      if last.family == "" {
        assert rows[|rows| - 1].value in Blank(rows);
      }
    }
  }

  lemma AllFilled(rows: seq<Row>, feed: seq<Item>, done: set<string>)
    requires forall v :: v in Blank(rows) && FamilyIn(feed, v) != "" ==> v in done
    ensures FilledIn(rows, feed, done) == Filled(rows, feed)
  {
    hide FamilyIn;
    var a, b := FilledIn(rows, feed, done), Filled(rows, feed);
    forall i | 0 <= i < |rows| ensures a[i] == b[i] {
      if rows[i].family == "" {
        assert rows[i].value in Blank(rows);
      }
    }
  }

  datatype Result = Result(imported: nat, duplicates: nat, skipped: nat, total: nat, alertsRaised: nat, attributed: nat)

  lemma FeedPrefix(feed: seq<Item>, i: nat)
    requires i < |feed|
    ensures feed[..i + 1][..|feed[..i + 1]| - 1] == feed[..i]
  {
  }

  /** First pass: normalise and deduplicate in memory, without the store. */
  method Collect(feed: seq<Item>) returns (candidates: seq<Row>, duplicates: nat, skipped: nat)
    ensures candidates == News({}, feed) && skipped == Skipped(feed)
    ensures |candidates| + duplicates + skipped == |feed|
  {
    hide Values;
    candidates, duplicates, skipped := [], 0, 0;
    var seen: set<string> := {};
    NoValues();
    for i := 0 to |feed|
      invariant candidates == News({}, feed[..i]) && skipped == Skipped(feed[..i])
      invariant seen == Values(candidates)
      invariant |candidates| + duplicates + skipped == i
    {
      FeedPrefix(feed, i);
      if feed[i].None? {
        skipped := skipped + 1;
      } else if feed[i].value.value in seen {
        duplicates := duplicates + 1;
      } else {
        ValuesConcat(candidates, [feed[i].value]);
        OneValue(feed[i].value);
        seen := seen + {feed[i].value.value};
        candidates := candidates + [feed[i].value];
      }
    }
    assert feed[..|feed|] == feed;
  }

  lemma NoValues()
    ensures Values([]) == {}
  {
  }

  class Store {
    var rows: seq<Row>
    var alerts: seq<Row>

    /** `SELECT value, malware_family FROM iocs WHERE value IN part`, sorted into the
        two sets. */
    method Probe(part: seq<string>) returns (existing: set<string>, unattributed: set<string>)
      ensures existing == Values(rows) * ToSet(part) && unattributed == Blank(rows) * ToSet(part)
    {
      existing, unattributed := {}, {};
      for i := 0 to |rows|
        invariant existing == Values(rows[..i]) * ToSet(part) && unattributed == Blank(rows[..i]) * ToSet(part)
      {
        assert rows[..i + 1] == rows[..i] + [rows[i]];
        ValuesConcat(rows[..i], [rows[i]]);
        OneValue(rows[i]);
        BlankSnoc(rows[..i], rows[i]);
        if rows[i].value in part {
          existing := existing + {rows[i].value};
          if rows[i].family == "" {
            unattributed := unattributed + {rows[i].value};
          }
        }
      }
      assert rows[..|rows|] == rows;
    }

    /** The probe in parts that fit one statement. */
    method ProbeAll(values: seq<string>) returns (existing: set<string>, unattributed: set<string>)
      ensures existing == Values(rows) * ToSet(values) && unattributed == Blank(rows) * ToSet(values)
    {
      hide Values, Blank;
      existing, unattributed := {}, {};
      var i := 0;
      while i < |values|
        invariant 0 <= i
        invariant var n := if i < |values| then i else |values|;
          existing == Values(rows) * ToSet(values[..n]) && unattributed == Blank(rows) * ToSet(values[..n])
        decreases |values| - i
      {
        var n := if i + EXISTS_CHUNK < |values| then i + EXISTS_CHUNK else |values|;
        var e, u := Probe(values[i..n]);
        existing, unattributed := existing + e, unattributed + u;
        assert values[..n] == values[..i] + values[i..n];
        i := i + EXISTS_CHUNK;
      }
      assert values[..|values|] == values;
    }

    method UpdateFamily(fam: string, part: seq<string>) returns (count: nat)
      modifies this`rows
      ensures rows == Updated(old(rows), fam, part) && count == RowCount(old(rows), part)
    {
      count := RowCount(rows, part);
      rows := Updated(rows, fam, part);
    }

    /** One family's values, in parts. */
    method FillOne(fam: string, vals: seq<string>, ghost before: seq<Row>, ghost feed: seq<Item>, ghost done: set<string>)
      returns (attributed: nat)
      requires Offered(feed, fam, vals) && rows == FilledIn(before, feed, done)
      requires forall v :: v in done ==> FamilyIn(feed, v) != ""
      modifies this`rows
      ensures rows == FilledIn(before, feed, done + ToSet(vals))
      ensures AttributedIn(before, done) + attributed == AttributedIn(before, done + ToSet(vals))
    {
      hide FamilyIn, FilledIn, AttributedIn, Updated, RowCount;
      attributed := 0;
      var i := 0;
      assert done + ToSet([]) == done && vals[..0] == [];
      while i < |vals|
        invariant 0 <= i
        invariant var n := if i < |vals| then i else |vals|;
          rows == FilledIn(before, feed, done + ToSet(vals[..n]))
          && AttributedIn(before, done) + attributed == AttributedIn(before, done + ToSet(vals[..n]))
        decreases |vals| - i
      {
        var n := if i + EXISTS_CHUNK < |vals| then i + EXISTS_CHUNK else |vals|;
        ghost var now := done + ToSet(vals[..i]);
        assert vals[..n] == vals[..i] + vals[i..n];
        assert now + ToSet(vals[i..n]) == done + ToSet(vals[..n]);
        UpdateIsFill(before, feed, now, fam, vals[i..n]);
        UpdateCounts(before, feed, now, vals[i..n]);
        var count := UpdateFamily(fam, vals[i..n]);
        attributed := attributed + count;
        i := i + EXISTS_CHUNK;
      }
      assert vals[..|vals|] == vals;
    }

    /** Blanks the store holds get the family the batch asserts; grouped by family. */
    method FillFamilies(candidates: seq<Row>, unattributed: set<string>, ghost feed: seq<Item>) returns (attributed: nat)
      requires candidates == News({}, feed)
      requires unattributed == Blank(rows) * Values(candidates)
      modifies this`rows
      ensures rows == Filled(old(rows), feed) && attributed == Attributed(old(rows), feed)
    {
      hide FamilyIn, FilledIn, AttributedIn, Blank, Values, News, Filled, Attributed;
      var byFamily: map<string, seq<string>> := map[];
      for i := 0 to |candidates|
        invariant rows == old(rows) && Grouped(candidates[..i], unattributed, byFamily)
      {
        var c := candidates[i];
        assert candidates[..i + 1] == candidates[..i] + [c];
        GroupOne(candidates[..i], c, unattributed, byFamily);
        if c.family != "" && c.value in unattributed {
          byFamily := byFamily[c.family := (if c.family in byFamily then byFamily[c.family] else []) + [c.value]];
        }
      }
      assert candidates[..|candidates|] == candidates;
      GroupsOffered(feed, candidates, unattributed, byFamily);
      attributed := 0;
      ghost var before, done := rows, {};
      NothingFilled(before, feed);
      var todo := byFamily.Keys;
      while todo != {}
        invariant todo <= byFamily.Keys
        invariant rows == FilledIn(before, feed, done) && attributed == AttributedIn(before, done)
        invariant forall v :: v in done ==> FamilyIn(feed, v) != ""
        invariant forall f, k :: f in byFamily && f !in todo && 0 <= k < |byFamily[f]| ==> byFamily[f][k] in done
        decreases todo
      {
        var fam :| fam in todo;
        todo := todo - {fam};
        var count := FillOne(fam, byFamily[fam], before, feed, done);
        attributed := attributed + count;
        done := done + ToSet(byFamily[fam]);
      }
      GroupsCover(before, feed, candidates, unattributed, byFamily, done);
      AllFilled(before, feed, done);
      AllAttributed(before, feed, done);
    }

    /** Alerts for the critical and confident among the new rows, in feed order, up to
        the budget. */
    method RaiseAlerts(added: seq<Row>, budget: nat, minConfidence: int) returns (raised: nat)
      modifies this`alerts
      ensures alerts == old(alerts) + Take(Alertable(added, minConfidence), budget)
      ensures raised == |Take(Alertable(added, minConfidence), budget)|
    {
      hide Alertable, Take;
      raised := 0;
      NothingRaised(budget, minConfidence);
      assert added[..0] == [] && alerts + [] == alerts;
      for i := 0 to |added|
        invariant alerts == old(alerts) + Take(Alertable(added[..i], minConfidence), budget)
        invariant raised == |Take(Alertable(added[..i], minConfidence), budget)|
      {
        if raised >= budget {
          BudgetSpent(added, i, budget, minConfidence);
          return;
        }
        RaiseNext(added, i, budget, minConfidence);
        if added[i].severity == "critical" && added[i].confidence >= minConfidence {
          alerts := alerts + [added[i]];
          raised := raised + 1;
        }
      }
      assert added[..|added|] == added;
    }

    /** One batch. */
    method Import(feed: seq<Item>, budget: nat, minConfidence: int) returns (r: Result)
      modifies this
      ensures rows == AfterBatch(old(rows), feed)
      ensures
        var added := News(Values(old(rows)), feed);
        var raised := Take(Alertable(added, minConfidence), budget);
        && alerts == old(alerts) + raised
        && r.imported == |added| && r.skipped == Skipped(feed) && r.imported + r.duplicates + r.skipped == |feed|
        && r.total == |feed| && r.alertsRaised == |raised| && r.attributed == Attributed(old(rows), feed)
    {
      hide News, Values, Blank, Filled, Attributed, Alertable, NotIn, Take;
      var candidates, duplicates, skipped := Collect(feed);
      NewsByFilter(Values(rows), feed);
      if candidates == [] {
        NothingToImport(rows, feed, budget, minConfidence);
        return Result(0, duplicates, skipped, |feed|, 0, 0);
      }
      var values := seq(|candidates|, i requires 0 <= i < |candidates| => candidates[i].value);
      ElemsAreValues(candidates, values);
      var existing, unattributed := ProbeAll(values);
      var attributed := FillFamilies(candidates, unattributed, feed);
      var added: seq<Row> := [];
      NoneNotIn(existing);
      for i := 0 to |candidates|
        invariant added == NotIn(candidates[..i], existing) && |added| <= i
        invariant rows == Filled(old(rows), feed) && alerts == old(alerts)
      {
        assert candidates[..i + 1] == candidates[..i] + [candidates[i]];
        NotInSnoc(candidates[..i], candidates[i], existing);
        if candidates[i].value !in existing {
          added := added + [candidates[i]];
        }
      }
      assert candidates[..|candidates|] == candidates;
      NotInRestricted(candidates, Values(old(rows)), Values(candidates));
      duplicates := duplicates + (|candidates| - |added|);
      rows := rows + added;
      var raised := RaiseAlerts(added, budget, minConfidence);
      r := Result(|added|, duplicates, skipped, |feed|, raised, attributed);
    }
  }

  lemma BlankSnoc(rows: seq<Row>, r: Row)
    ensures Blank(rows + [r]) == Blank(rows) + (if r.family == "" then {r.value} else {})
  {
    var all := rows + [r];
    forall v | v in Blank(rows) ensures v in Blank(all) {
      var i :| 0 <= i < |rows| && rows[i].family == "" && rows[i].value == v;
      assert all[i] == rows[i];
    }
    assert all[|rows|] == r;
  }

  lemma NothingRaised(budget: nat, minConfidence: int)
    ensures Take(Alertable([], minConfidence), budget) == []
  {
  }

  lemma BudgetSpent(added: seq<Row>, i: nat, budget: nat, minConfidence: int)
    requires i <= |added| && |Take(Alertable(added[..i], minConfidence), budget)| >= budget
    ensures Take(Alertable(added, minConfidence), budget) == Take(Alertable(added[..i], minConfidence), budget)
  {
    hide Alertable;
    assert added == added[..i] + added[i..];
    AlertableConcat(added[..i], added[i..], minConfidence);
  }

  lemma RaiseNext(added: seq<Row>, i: nat, budget: nat, minConfidence: int)
    requires i < |added| && |Take(Alertable(added[..i], minConfidence), budget)| < budget
    ensures
      var now, next := Take(Alertable(added[..i], minConfidence), budget), Take(Alertable(added[..i + 1], minConfidence), budget);
      if added[i].severity == "critical" && added[i].confidence >= minConfidence then next == now + [added[i]] else next == now
  {
    hide Alertable;
    assert added[..i + 1] == added[..i] + [added[i]];
    AlertableConcat(added[..i], [added[i]], minConfidence);
    AlertableOne(added[i], minConfidence);
  }

  lemma AlertableOne(r: Row, minConfidence: int)
    ensures Alertable([r], minConfidence) == if r.severity == "critical" && r.confidence >= minConfidence then [r] else []
  {
    assert [r][..0] == [];
  }

  lemma NoneNotIn(stored: set<string>)
    ensures NotIn([], stored) == []
  {
  }

  lemma ElemsAreValues(rows: seq<Row>, values: seq<string>)
    requires |values| == |rows| && forall i :: 0 <= i < |rows| ==> values[i] == rows[i].value
    ensures ToSet(values) == Values(rows)
  {
    forall v | v in ToSet(values) ensures v in Values(rows) {
      var i :| 0 <= i < |values| && values[i] == v;
      ValueAt(rows, i);
    }
    forall v | v in Values(rows) ensures v in ToSet(values) {
      var i :| 0 <= i < |rows| && rows[i].value == v;
      assert values[i] == v;
    }
  }

  /** The groups hold exactly the values that are blank in the store and that a
      candidate names a family for, each under that family. */
  ghost predicate Grouped(candidates: seq<Row>, unattributed: set<string>, byFamily: map<string, seq<string>>) {
    && (forall f, k :: f in byFamily && 0 <= k < |byFamily[f]| ==> InGroup(candidates, unattributed, f, byFamily[f][k]))
    && (forall f :: f in byFamily ==> f != "")
    && (forall j :: 0 <= j < |candidates| && candidates[j].family != "" && candidates[j].value in unattributed ==>
          candidates[j].family in byFamily && candidates[j].value in byFamily[candidates[j].family])
  }

  ghost predicate InGroup(candidates: seq<Row>, unattributed: set<string>, fam: string, v: string) {
    v in unattributed && exists j :: 0 <= j < |candidates| && candidates[j].value == v && candidates[j].family == fam
  }

  lemma GroupOne(candidates: seq<Row>, c: Row, unattributed: set<string>, byFamily: map<string, seq<string>>)
    requires Grouped(candidates, unattributed, byFamily)
    ensures
      var group := if c.family in byFamily then byFamily[c.family] else [];
      Grouped(candidates + [c], unattributed,
              if c.family != "" && c.value in unattributed then byFamily[c.family := group + [c.value]] else byFamily)
  {
    var more := candidates + [c];
    assert more[|candidates|] == c;
    forall f, v | InGroup(candidates, unattributed, f, v) ensures InGroup(more, unattributed, f, v) {
      var j :| 0 <= j < |candidates| && candidates[j].value == v && candidates[j].family == f;
      assert more[j] == candidates[j];
    }
    assert forall j :: 0 <= j < |candidates| ==> more[j] == candidates[j];
  }

  lemma GroupsOffered(feed: seq<Item>, candidates: seq<Row>, unattributed: set<string>, byFamily: map<string, seq<string>>)
    requires candidates == News({}, feed) && Grouped(candidates, unattributed, byFamily)
    ensures forall f :: f in byFamily ==> Offered(feed, f, byFamily[f])
  {
    hide News, FamilyIn;
    forall f, k | f in byFamily && 0 <= k < |byFamily[f]| ensures FamilyIn(feed, byFamily[f][k]) == f {
      assert InGroup(candidates, unattributed, f, byFamily[f][k]);
      var j :| 0 <= j < |candidates| && candidates[j].value == byFamily[f][k] && candidates[j].family == f;
      FamilyOfNew({}, feed, candidates[j]);
    }
  }

  lemma NothingFilled(rows: seq<Row>, feed: seq<Item>)
    ensures FilledIn(rows, feed, {}) == rows && AttributedIn(rows, {}) == 0
  {
    if rows != [] {
      NothingFilled(rows[..|rows| - 1], feed);
    }
  }

  lemma GroupsCover(before: seq<Row>, feed: seq<Item>, candidates: seq<Row>, unattributed: set<string>,
                    byFamily: map<string, seq<string>>, done: set<string>)
    requires candidates == News({}, feed) && Grouped(candidates, unattributed, byFamily)
    requires unattributed == Blank(before) * Values(candidates)
    requires forall f, k :: f in byFamily && 0 <= k < |byFamily[f]| ==> byFamily[f][k] in done
    ensures forall v :: v in Blank(before) && FamilyIn(feed, v) != "" ==> v in done
  {
    hide News, FamilyIn, Blank;
    forall v | v in Blank(before) && FamilyIn(feed, v) != "" ensures v in done {
      if v !in Values(candidates) {
        FamilyOfOther({}, feed, v);
      }
      var j :| 0 <= j < |candidates| && candidates[j].value == v;
      FamilyOfNew({}, feed, candidates[j]);
      var group := byFamily[candidates[j].family];
      var k :| 0 <= k < |group| && group[k] == v;
      assert byFamily[candidates[j].family][k] in done;
    }
  }

  lemma NothingToImport(rows: seq<Row>, feed: seq<Item>, budget: nat, minConfidence: int)
    requires News({}, feed) == []
    ensures AfterBatch(rows, feed) == rows && Attributed(rows, feed) == 0
    ensures News(Values(rows), feed) == [] && Take(Alertable([], minConfidence), budget) == []
  {
    hide News, FamilyIn, Values;
    NewsByFilter(Values(rows), feed);
    NoneNotIn(Values(rows));
    NoValues();
    forall v ensures FamilyIn(feed, v) == "" {
      FamilyOfOther({}, feed, v);
    }
    assert Filled(rows, feed) == rows;
    NoneAttributed(rows, feed);
  }

  lemma {:induction false} NoneAttributed(rows: seq<Row>, feed: seq<Item>)
    requires forall v :: FamilyIn(feed, v) == ""
    ensures Attributed(rows, feed) == 0
  {
    if rows != [] {
      NoneAttributed(rows[..|rows| - 1], feed);
    }
  }

  // ---------------------------------------------------------------------
  // import_indicators
  // ---------------------------------------------------------------------

  /** The store after the feed, in sub-batches. */
  function AfterAll(rows: seq<Row>, feed: seq<Item>, batch: nat): seq<Row>
    requires batch > 0
    decreases |feed|
  {
    if feed == [] then rows
    else
      var k := Min(batch, |feed|);
      AfterAll(AfterBatch(rows, feed[..k]), feed[k..], batch)
  }

  function AttributedAll(rows: seq<Row>, feed: seq<Item>, batch: nat): nat
    requires batch > 0
    decreases |feed|
  {
    if feed == [] then 0
    else
      var k := Min(batch, |feed|);
      Attributed(rows, feed[..k]) + AttributedAll(AfterBatch(rows, feed[..k]), feed[k..], batch)
  }

  /** The family of a value after the feed, from the one it had. */
  function FamilyAfter(have: string, feed: seq<Item>, batch: nat, v: string): string
    requires batch > 0
    decreases |feed|
  {
    if feed == [] then have
    else
      var k := Min(batch, |feed|);
      FamilyAfter(Prefer(have, FamilyIn(feed[..k], v)), feed[k..], batch, v)
  }

  /** Rows without their families. */
  function Bare(rows: seq<Row>): (bare: seq<Row>)
    ensures |bare| == |rows|
  {
    seq(|rows|, i requires 0 <= i < |rows| => rows[i].(family := ""))
  }

  function Settled(rows: seq<Row>, feed: seq<Item>, batch: nat): (after: seq<Row>)
    requires batch > 0
    ensures |after| == |rows|
  {
    seq(|rows|, i requires 0 <= i < |rows| => rows[i].(family := FamilyAfter(rows[i].family, feed, batch, rows[i].value)))
  }

  lemma FilledValues(rows: seq<Row>, feed: seq<Item>)
    ensures Values(Filled(rows, feed)) == Values(rows)
  {
    hide FamilyIn;
    var after := Filled(rows, feed);
    forall v | v in Values(rows) ensures v in Values(after) {
      var i :| 0 <= i < |rows| && rows[i].value == v;
      assert after[i].value == v;
    }
  }

  lemma BatchValues(rows: seq<Row>, feed: seq<Item>)
    ensures Values(AfterBatch(rows, feed)) == Values(rows) + Values(News(Values(rows), feed))
  {
    hide Values, News, Filled;
    FilledValues(rows, feed);
    ValuesConcat(Filled(rows, feed), News(Values(rows), feed));
  }

  lemma FamilyStep(have: string, chunk: seq<Item>, rest: seq<Item>, batch: nat, v: string)
    requires batch > 0 && 0 < |chunk| <= batch && (|chunk| == batch || rest == [])
    ensures FamilyAfter(have, chunk + rest, batch, v) == FamilyAfter(Prefer(have, FamilyIn(chunk, v)), rest, batch, v)
  {
    hide FamilyIn;
    var k := Min(batch, |chunk + rest|);
    assert (chunk + rest)[..k] == chunk && (chunk + rest)[k..] == rest;
  }

  /** A row of the store through the first batch and then the others. */
  lemma SettleStored(rows: seq<Row>, chunk: seq<Item>, rest: seq<Item>, batch: nat)
    requires batch > 0 && 0 < |chunk| <= batch && (|chunk| == batch || rest == [])
    ensures Settled(Filled(rows, chunk), rest, batch) == Settled(rows, chunk + rest, batch)
  {
    hide FamilyIn, FamilyAfter, Prefer;
    var a, b := Settled(Filled(rows, chunk), rest, batch), Settled(rows, chunk + rest, batch);
    forall i | 0 <= i < |rows| ensures a[i] == b[i] {
      FamilyStep(rows[i].family, chunk, rest, batch, rows[i].value);
    }
  }

  /** A row the first batch added. */
  lemma SettleAdded(stored: set<string>, chunk: seq<Item>, rest: seq<Item>, batch: nat)
    requires batch > 0 && 0 < |chunk| <= batch && (|chunk| == batch || rest == [])
    ensures Settled(News(stored, chunk), rest, batch) == Settled(Bare(News(stored, chunk)), chunk + rest, batch)
  {
    hide FamilyIn, FamilyAfter, News;
    var added := News(stored, chunk);
    var a, b := Settled(added, rest, batch), Settled(Bare(added), chunk + rest, batch);
    forall i | 0 <= i < |added| ensures a[i] == b[i] {
      FamilyOfNew(stored, chunk, added[i]);
      FamilyStep("", chunk, rest, batch, added[i].value);
    }
  }

  /** A row that a later batch adds: the first batch says nothing about it. */
  lemma SettleLater(stored: set<string>, chunk: seq<Item>, rest: seq<Item>, batch: nat)
    requires batch > 0 && 0 < |chunk| <= batch && (|chunk| == batch || rest == [])
    ensures
      var later := Bare(News(stored + Values(News(stored, chunk)), rest));
      Settled(later, rest, batch) == Settled(later, chunk + rest, batch)
  {
    hide FamilyIn, FamilyAfter, News, Values;
    var all := stored + Values(News(stored, chunk));
    var added := News(all, rest);
    NewsAreNew(all, rest);
    var a, b := Settled(Bare(added), rest, batch), Settled(Bare(added), chunk + rest, batch);
    forall i | 0 <= i < |added| ensures a[i] == b[i] {
      ValueAt(added, i);
      FamilyOfOther(stored, chunk, added[i].value);
      FamilyStep("", chunk, rest, batch, added[i].value);
    }
  }

  lemma SettledConcat(a: seq<Row>, b: seq<Row>, feed: seq<Item>, batch: nat)
    requires batch > 0
    ensures Settled(a + b, feed, batch) == Settled(a, feed, batch) + Settled(b, feed, batch)
  {
    hide FamilyAfter;
  }

  lemma BareConcat(a: seq<Row>, b: seq<Row>)
    ensures Bare(a + b) == Bare(a) + Bare(b)
  {
  }

  lemma NothingSettles(rows: seq<Row>, batch: nat)
    requires batch > 0
    ensures Settled(rows, [], batch) == rows
  {
  }

  /** The whole effect of the sub-batches on the table: the rows the feed as a whole
      adds, in feed order, after those that were there, with nothing but families
      filled in. */
  lemma {:induction false} AfterAllIs(rows: seq<Row>, feed: seq<Item>, batch: nat)
    requires batch > 0
    ensures AfterAll(rows, feed, batch) == Settled(rows + Bare(News(Values(rows), feed)), feed, batch)
    decreases |feed|
  {
    hide Settled, Bare, Values, News, Filled;
    if feed == [] {
      NoNews(Values(rows));
      assert rows + Bare([]) == rows;
      NothingSettles(rows, batch);
    } else {
      var k := Min(batch, |feed|);
      var chunk, rest := feed[..k], feed[k..];
      assert chunk + rest == feed;
      var stored := Values(rows);
      var added, filled := News(stored, chunk), Filled(rows, chunk);
      var later := News(stored + Values(added), rest);
      AfterAllIs(AfterBatch(rows, chunk), rest, batch);
      BatchValues(rows, chunk);
      SettledConcat(filled + added, Bare(later), rest, batch);
      SettledConcat(filled, added, rest, batch);
      SettleStored(rows, chunk, rest, batch);
      SettleAdded(stored, chunk, rest, batch);
      SettleLater(stored, chunk, rest, batch);
      NewsConcat(stored, chunk, rest);
      BareConcat(added, later);
      SettledConcat(rows, Bare(added) + Bare(later), feed, batch);
      SettledConcat(Bare(added), Bare(later), feed, batch);
      var s, x, y := Settled(rows, feed, batch), Settled(Bare(added), feed, batch), Settled(Bare(later), feed, batch);
      assert s + x + y == s + (x + y);
    }
  }

  lemma BareSettled(rows: seq<Row>, feed: seq<Item>, batch: nat)
    requires batch > 0
    ensures Bare(Settled(rows, feed, batch)) == Bare(rows) && Bare(Bare(rows)) == Bare(rows)
  {
    hide FamilyAfter;
  }

  /** Up to families the table does not depend on the size of the sub-batches. */
  lemma TableOfAnyBatch(rows: seq<Row>, feed: seq<Item>, batch: nat)
    requires batch > 0
    ensures Bare(AfterAll(rows, feed, batch)) == Bare(rows) + Bare(News(Values(rows), feed))
  {
    hide Settled, Bare, Values, News, AfterAll;
    AfterAllIs(rows, feed, batch);
    BareSettled(rows + Bare(News(Values(rows), feed)), feed, batch);
    BareConcat(rows, Bare(News(Values(rows), feed)));
    BareSettled(News(Values(rows), feed), feed, batch);
  }

  /** Values stay unique where they were. */
  lemma ValuesStayUnique(rows: seq<Row>, feed: seq<Item>, batch: nat)
    requires batch > 0 && DistinctValues(rows)
    ensures DistinctValues(AfterAll(rows, feed, batch))
  {
    hide News, FamilyAfter, AfterAll;
    var added := News(Values(rows), feed);
    AfterAllIs(rows, feed, batch);
    NewsAreNew(Values(rows), feed);
    var after := AfterAll(rows, feed, batch);
    assert forall i :: 0 <= i < |after| ==> after[i].value == if i < |rows| then rows[i].value else added[i - |rows|].value;
    forall i, j | 0 <= i < j < |after| ensures after[i].value != after[j].value {
      if i < |rows| <= j {
        ValueAt(rows, i);
        ValueAt(added, j - |rows|);
      }
    }
  }

  // ---------------------------------------------------------------------
  // Row by row
  // ---------------------------------------------------------------------

  datatype Ledger = Ledger(rows: seq<Row>, alerts: seq<Row>, imported: nat, duplicates: nat, skipped: nat)

  /** The import without any batching: look the value up, insert it or fill its
      family, alert while fewer than the cap were raised. */
  function One(l: Ledger, item: Item, minConfidence: int): Ledger {
    if item.None? then l.(skipped := l.skipped + 1)
    else
      var r := item.value;
      if r.value in Values(l.rows) then
        l.(rows := Updated(l.rows, r.family, [r.value]), duplicates := l.duplicates + 1)
      else
        var raise := r.severity == "critical" && r.confidence >= minConfidence && |l.alerts| < MAX_ALERTS;
        l.(rows := l.rows + [r], alerts := l.alerts + (if raise then [r] else []), imported := l.imported + 1)
  }

  function RowByRow(l: Ledger, feed: seq<Item>, minConfidence: int): Ledger
    decreases |feed|
  {
    if feed == [] then l else RowByRow(One(l, feed[0], minConfidence), feed[1..], minConfidence)
  }

  lemma OneNews(stored: set<string>, item: Item)
    ensures News(stored, [item]) == if item.Some? && item.value.value !in stored then [item.value] else []
    ensures Skipped([item]) == if item.None? then 1 else 0
  {
    assert [item][..0] == [];
    NoValues();
  }

  lemma FamilyOfOne(item: Item, v: string)
    ensures FamilyIn([item], v) == if item.Some? && item.value.value == v then item.value.family else ""
  {
    assert [item][1..] == [];
  }

  lemma OneIsBatch(l: Ledger, item: Item, minConfidence: int)
    ensures One(l, item, minConfidence).rows == AfterBatch(l.rows, [item])
  {
    hide News, Values, FamilyIn;
    OneNews(Values(l.rows), item);
    var a, b := One(l, item, minConfidence).rows, AfterBatch(l.rows, [item]);
    forall i | 0 <= i < |l.rows| ensures a[i] == b[i] {
      ValueAt(l.rows, i);
      FamilyOfOne(item, l.rows[i].value);
    }
  }

  lemma {:induction false} RowByRowIs(l: Ledger, feed: seq<Item>, minConfidence: int)
    requires |l.alerts| <= MAX_ALERTS
    ensures
      var end, added := RowByRow(l, feed, minConfidence), News(Values(l.rows), feed);
      && end.rows == AfterAll(l.rows, feed, 1)
      && end.alerts == l.alerts + Take(Alertable(added, minConfidence), MAX_ALERTS - |l.alerts|)
      && end.imported == l.imported + |added| && end.skipped == l.skipped + Skipped(feed)
      && end.imported + end.duplicates + end.skipped == l.imported + l.duplicates + l.skipped + |feed|
    decreases |feed|
  {
    hide News, Values, AfterBatch, Alertable, One, Take, Skipped;
    if feed == [] {
      NoNews(Values(l.rows));
      NothingTaken(minConfidence, MAX_ALERTS - |l.alerts|);
    } else {
      var item, rest := feed[0], feed[1..];
      var l1 := One(l, item, minConfidence);
      var first := News(Values(l.rows), [item]);
      assert feed[..1] == [item] && [item] + rest == feed;
      OneIsBatch(l, item, minConfidence);
      OneLedger(l, item, minConfidence);
      TakeBound(Alertable(first, minConfidence), MAX_ALERTS - |l.alerts|);
      RowByRowIs(l1, rest, minConfidence);
      BatchValues(l.rows, [item]);
      NewsConcat(Values(l.rows), [item], rest);
      SkippedConcat([item], rest);
      OneNews(Values(l.rows), item);
      var later := News(Values(l1.rows), rest);
      AlertableConcat(first, later, minConfidence);
      TakeConcat(Alertable(first, minConfidence), Alertable(later, minConfidence), MAX_ALERTS - |l.alerts|);
      var x, y := Take(Alertable(first, minConfidence), MAX_ALERTS - |l.alerts|), Take(Alertable(later, minConfidence), MAX_ALERTS - |l1.alerts|);
      assert l.alerts + x + y == l.alerts + (x + y);
    }
  }

  lemma NoAlertable(minConfidence: int)
    ensures Alertable([], minConfidence) == []
  {
  }

  lemma NothingTaken(minConfidence: int, n: nat)
    ensures Take(Alertable([], minConfidence), n) == [] && Skipped([]) == 0
  {
  }

  lemma OneLedger(l: Ledger, item: Item, minConfidence: int)
    requires |l.alerts| <= MAX_ALERTS
    ensures
      var l1, first := One(l, item, minConfidence), News(Values(l.rows), [item]);
      && l1.alerts == l.alerts + Take(Alertable(first, minConfidence), MAX_ALERTS - |l.alerts|)
      && l1.imported == l.imported + |first| && l1.skipped == l.skipped + Skipped([item])
      && l1.imported + l1.duplicates + l1.skipped == l.imported + l.duplicates + l.skipped + 1
  {
    hide Values, News, Updated;
    OneNews(Values(l.rows), item);
    NoAlertable(minConfidence);
    assert l.alerts + [] == l.alerts;
    if item.Some? {
      AlertableOne(item.value, minConfidence);
    }
  }

  // ---------------------------------------------------------------------
  // The batched import refines it
  // ---------------------------------------------------------------------

  /** Where the loop over the sub-batches stands after the first part of the feed. */
  ghost predicate SoFar(start: seq<Row>, feed: seq<Item>, done: nat, minConfidence: int, rows: seq<Row>,
                        alerts: seq<Row>, t: Result, budget: int)
    requires done <= |feed|
  {
    var added := News(Values(start), feed[..done]);
    && Values(rows) == Values(start) + Values(added)
    && alerts == Take(Alertable(added, minConfidence), MAX_ALERTS)
    && t.imported == |added| && t.skipped == Skipped(feed[..done]) && t.imported + t.duplicates + t.skipped == done
    && t.alertsRaised == |alerts| && budget == MAX_ALERTS - |alerts|
  }

  lemma SoFarStart(start: seq<Row>, feed: seq<Item>, minConfidence: int)
    ensures SoFar(start, feed, 0, minConfidence, start, [], Result(0, 0, 0, |feed|, 0, 0), MAX_ALERTS)
  {
    NoNews(Values(start));
    NoAlertable(minConfidence);
    assert feed[..0] == [];
    NoValues();
  }

  lemma SoFarStep(start: seq<Row>, feed: seq<Item>, i: nat, j: nat, minConfidence: int, rows: seq<Row>,
                  alerts: seq<Row>, t: Result, budget: int, r: Result, more: seq<Row>)
    requires i <= j <= |feed| && SoFar(start, feed, i, minConfidence, rows, alerts, t, budget)
    requires
      var added := News(Values(rows), feed[i..j]);
      && more == Take(Alertable(added, minConfidence), budget)
      && r.imported == |added| && r.skipped == Skipped(feed[i..j]) && r.imported + r.duplicates + r.skipped == j - i
      && r.alertsRaised == |more|
    ensures
      var t1 := Result(t.imported + r.imported, t.duplicates + r.duplicates, t.skipped + r.skipped, t.total,
                       t.alertsRaised + r.alertsRaised, t.attributed + r.attributed);
      SoFar(start, feed, j, minConfidence, AfterBatch(rows, feed[i..j]), alerts + more, t1, budget - r.alertsRaised)
  {
    hide News, Values, Alertable, Skipped, AfterBatch;
    var a, b := feed[..i], feed[i..j];
    assert feed[..j] == a + b;
    var first := News(Values(start), a);
    var added := News(Values(rows), b);
    NewsConcat(Values(start), a, b);
    SkippedConcat(a, b);
    BatchValues(rows, b);
    ValuesConcat(first, added);
    AlertableConcat(first, added, minConfidence);
    TakeConcat(Alertable(first, minConfidence), Alertable(added, minConfidence), MAX_ALERTS);
    assert Values(start) + Values(first) + Values(added) == Values(start) + (Values(first) + Values(added));
  }

  lemma AfterAllStep(rows: seq<Row>, feed: seq<Item>, i: nat, j: nat, batch: nat)
    requires batch > 0 && i < |feed| && j == Min(i + batch, |feed|)
    ensures AfterAll(rows, feed[i..], batch) == AfterAll(AfterBatch(rows, feed[i..j]), feed[j..], batch)
    ensures AttributedAll(rows, feed[i..], batch)
         == Attributed(rows, feed[i..j]) + AttributedAll(AfterBatch(rows, feed[i..j]), feed[j..], batch)
  {
    hide AfterBatch, Attributed;
    var rest := feed[i..];
    assert rest[..Min(batch, |rest|)] == feed[i..j] && rest[Min(batch, |rest|)..] == feed[j..];
  }

  /** For every feed, store and sub-batch size: the same rows (up to families), the
      same alerts in the same order within one budget, and the same counts as the
      import that looks at one indicator at a time. */
  method ImportIndicators(store: Store, feed: seq<Item>, batch: nat, minConfidence: int)
    returns (t: Result, ghost firsts: seq<nat>, ghost picks: seq<nat>)
    requires batch > 0
    modifies store
    ensures store.rows == AfterAll(old(store.rows), feed, batch)
    ensures
      var l := RowByRow(Ledger(old(store.rows), [], 0, 0, 0), feed, minConfidence);
      && Bare(store.rows) == Bare(l.rows) && store.alerts == old(store.alerts) + l.alerts && |l.alerts| <= MAX_ALERTS
      && t.imported == l.imported && t.duplicates == l.duplicates && t.skipped == l.skipped
      && t.alertsRaised == |l.alerts| && t.total == |feed|
    ensures t.imported + t.duplicates + t.skipped == |feed|
    ensures t.attributed == AttributedAll(old(store.rows), feed, batch)
    ensures old(store.alerts) <= store.alerts
    ensures AsFed(old(store.rows), feed, batch, minConfidence, firsts, picks, store.rows, store.alerts[|old(store.alerts)|..], t)
  {
    hide AsFed, AfterAll, AttributedAll, AfterBatch, Attributed, News, Values, Alertable, Skipped, RowByRow, Bare, SoFar, Take;
    ghost var start, before := store.rows, store.alerts;
    ghost var raised: seq<Row> := [];
    var budget: int := MAX_ALERTS;
    t := Result(0, 0, 0, |feed|, 0, 0);
    SoFarStart(start, feed, minConfidence);
    assert feed[0..] == feed && before + [] == before;
    var i := 0;
    while i < |feed|
      invariant i <= |feed| && t.total == |feed| && budget >= 0
      invariant store.alerts == before + raised
      invariant SoFar(start, feed, i, minConfidence, store.rows, raised, t, budget)
      invariant AfterAll(store.rows, feed[i..], batch) == AfterAll(start, feed, batch)
      invariant t.attributed + AttributedAll(store.rows, feed[i..], batch) == AttributedAll(start, feed, batch)
    {
      var j := Min(i + batch, |feed|);
      AfterAllStep(store.rows, feed, i, j, batch);
      ghost var more := Take(Alertable(News(Values(store.rows), feed[i..j]), minConfidence), budget);
      ghost var rows0 := store.rows;
      var r := store.Import(feed[i..j], budget, minConfidence);
      SoFarStep(start, feed, i, j, minConfidence, rows0, raised, t, budget, r, more);
      TakeBound(Alertable(News(Values(rows0), feed[i..j]), minConfidence), budget);
      raised := raised + more;
      t := Result(t.imported + r.imported, t.duplicates + r.duplicates, t.skipped + r.skipped, t.total,
                  t.alertsRaised + r.alertsRaised, t.attributed + r.attributed);
      budget := budget - r.alertsRaised;
      i := j;
    }
    Finished(start, feed, batch, minConfidence, store.rows, raised, t, budget);
    AllOfIt(start, feed, minConfidence, store.rows, raised, t, budget);
    firsts, picks := ImportedAsFed(start, feed, batch, minConfidence, t);
    assert store.alerts[|before|..] == raised;
  }

  lemma AllOfIt(start: seq<Row>, feed: seq<Item>, minConfidence: int, rows: seq<Row>, raised: seq<Row>, t: Result, budget: int)
    requires SoFar(start, feed, |feed|, minConfidence, rows, raised, t, budget)
    ensures
      var added := News(Values(start), feed);
      && raised == Take(Alertable(added, minConfidence), MAX_ALERTS) && t.alertsRaised == |raised|
      && t.imported == |added| && t.skipped == Skipped(feed)
  {
    hide News, Values, Alertable, Take, Skipped;
    assert feed[..|feed|] == feed;
  }

  lemma TakeBound(rows: seq<Row>, n: nat)
    ensures |Take(rows, n)| <= n
  {
  }

  lemma Finished(start: seq<Row>, feed: seq<Item>, batch: nat, minConfidence: int, rows: seq<Row>,
                 raised: seq<Row>, t: Result, budget: int)
    requires batch > 0 && SoFar(start, feed, |feed|, minConfidence, rows, raised, t, budget)
    requires AfterAll(rows, feed[|feed|..], batch) == AfterAll(start, feed, batch)
    requires t.attributed + AttributedAll(rows, feed[|feed|..], batch) == AttributedAll(start, feed, batch)
    ensures
      var l := RowByRow(Ledger(start, [], 0, 0, 0), feed, minConfidence);
      && rows == AfterAll(start, feed, batch) && Bare(rows) == Bare(l.rows) && raised == l.alerts && |raised| <= MAX_ALERTS
      && t.imported == l.imported && t.duplicates == l.duplicates && t.skipped == l.skipped
      && t.alertsRaised == |l.alerts| && t.imported + t.duplicates + t.skipped == |feed|
    ensures t.attributed == AttributedAll(start, feed, batch)
  {
    hide News, Values, Alertable, Skipped, RowByRow, Bare, Take;
    assert feed[..|feed|] == feed;
    RowByRowIs(Ledger(start, [], 0, 0, 0), feed, minConfidence);
    TableOfAnyBatch(start, feed, batch);
    TableOfAnyBatch(start, feed, 1);
    TakeBound(Alertable(News(Values(start), feed), minConfidence), MAX_ALERTS);
  }

  // ---------------------------------------------------------------------
  // Where families differ
  // ---------------------------------------------------------------------

  /** The first family any item of the feed names for the value. */
  function FirstNamed(feed: seq<Item>, v: string): string {
    if feed == [] then ""
    else if feed[0].Some? && feed[0].value.value == v && feed[0].value.family != "" then feed[0].value.family
    else FirstNamed(feed[1..], v)
  }

  lemma {:induction false} RowByRowFamily(have: string, feed: seq<Item>, v: string)
    ensures FamilyAfter(have, feed, 1, v) == Prefer(have, FirstNamed(feed, v))
    decreases |feed|
  {
    if feed != [] {
      hide FamilyIn;
      assert feed[..1] == [feed[0]];
      FamilyOfOne(feed[0], v);
      RowByRowFamily(Prefer(have, FamilyIn([feed[0]], v)), feed[1..], v);
    }
  }

  /** The first family named by an item that is the first of its value in its
      sub-batch; a repeat within a sub-batch is dropped, family and all. */
  function FirstLeading(feed: seq<Item>, batch: nat, v: string): string
    requires batch > 0
    decreases |feed|
  {
    if feed == [] then ""
    else
      var k := Min(batch, |feed|);
      Prefer(FamilyIn(feed[..k], v), FirstLeading(feed[k..], batch, v))
  }

  /** The family a value ends up with, for every sub-batch size. */
  lemma {:induction false} FamilyOfBatches(have: string, feed: seq<Item>, batch: nat, v: string)
    requires batch > 0
    ensures FamilyAfter(have, feed, batch, v) == Prefer(have, FirstLeading(feed, batch, v))
    decreases |feed|
  {
    if feed != [] {
      hide FamilyIn;
      var k := Min(batch, |feed|);
      FamilyOfBatches(Prefer(have, FamilyIn(feed[..k], v)), feed[k..], batch, v);
    }
  }

  /** For every feed and sub-batch size: the batched import and the one that goes row
      by row leave a value with the same family exactly when it had one, or the first
      family named at the head of a sub-batch is the first named at all. */
  lemma FamiliesAgreeIff(have: string, feed: seq<Item>, batch: nat, v: string)
    requires batch > 0
    ensures FamilyAfter(have, feed, batch, v) == FamilyAfter(have, feed, 1, v)
            <==> have != "" || FirstLeading(feed, batch, v) == FirstNamed(feed, v)
  {
    FamilyOfBatches(have, feed, batch, v);
    RowByRowFamily(have, feed, v);
  }

  /** The rows as they are first present: those of the store, and the new ones before
      any family is filled in. */
  function Base(rows: seq<Row>, feed: seq<Item>): seq<Row> {
    rows + Bare(News(Values(rows), feed))
  }

  /** And the whole tables are equal, families included, exactly when that holds of
      each row that has no family to begin with. */
  lemma TablesAgreeIff(rows: seq<Row>, feed: seq<Item>, batch: nat, minConfidence: int)
    requires batch > 0
    ensures
      AfterAll(rows, feed, batch) == RowByRow(Ledger(rows, [], 0, 0, 0), feed, minConfidence).rows
      <==> forall i :: 0 <= i < |Base(rows, feed)| && Base(rows, feed)[i].family == "" ==>
             FirstLeading(feed, batch, Base(rows, feed)[i].value) == FirstNamed(feed, Base(rows, feed)[i].value)
  {
    hide AfterAll, RowByRow, Base, FamilyAfter, FirstLeading, FirstNamed;
    RowByRowIs(Ledger(rows, [], 0, 0, 0), feed, minConfidence);
    AfterAllIs(rows, feed, batch);
    AfterAllIs(rows, feed, 1);
    BaseIs(rows, feed);
    SettledAgree(Base(rows, feed), feed, batch);
  }

  lemma BaseIs(rows: seq<Row>, feed: seq<Item>)
    ensures Base(rows, feed) == rows + Bare(News(Values(rows), feed))
  {
  }

  lemma SettledAgree(base: seq<Row>, feed: seq<Item>, batch: nat)
    requires batch > 0
    ensures Settled(base, feed, batch) == Settled(base, feed, 1)
      <==> forall i :: 0 <= i < |base| && base[i].family == "" ==>
             FirstLeading(feed, batch, base[i].value) == FirstNamed(feed, base[i].value)
  {
    hide FamilyAfter, FirstLeading, FirstNamed;
    var a, b := Settled(base, feed, batch), Settled(base, feed, 1);
    forall i | 0 <= i < |base|
      ensures a[i] == b[i] <==> base[i].family != "" || FirstLeading(feed, batch, base[i].value) == FirstNamed(feed, base[i].value)
    {
      FamiliesAgreeIff(base[i].family, feed, batch, base[i].value);
    }
  }

  // ---------------------------------------------------------------------
  // The import, item by item
  // ---------------------------------------------------------------------

  /** Not skipped, the first item of its value in the feed, and of a value that no row of
      the store has. */
  ghost predicate IsNew(rows: seq<Row>, feed: seq<Item>, i: nat) {
    && i < |feed| && feed[i].Some?
    && (forall j :: 0 <= j < i && feed[j].Some? ==> feed[j].value.value != feed[i].value.value)
    && (forall k :: 0 <= k < |rows| ==> rows[k].value != feed[i].value.value)
  }

  /** The positions of the items that become rows. */
  ghost predicate AreFirsts(rows: seq<Row>, feed: seq<Item>, firsts: seq<nat>) {
    Ascending(firsts) && forall i: nat :: i in firsts <==> IsNew(rows, feed, i)
  }

  function ItemsAt(feed: seq<Item>, at: seq<nat>): seq<Row>
    requires forall j :: 0 <= j < |at| ==> at[j] < |feed| && feed[at[j]].Some?
  {
    seq(|at|, j requires 0 <= j < |at| => feed[at[j]].value)
  }

  function RowsAt(rows: seq<Row>, at: seq<nat>): (r: seq<Row>)
    requires forall j :: 0 <= j < |at| ==> at[j] < |rows|
  {
    seq(|at|, j requires 0 <= j < |at| => rows[at[j]])
  }

  ghost predicate Worth(r: Row, minConfidence: int) {
    r.severity == "critical" && r.confidence >= minConfidence
  }

  /** Of these rows the first ones that are critical and confident, as many as allowed. */
  ghost predicate ArePicked(rows: seq<Row>, minConfidence: int, limit: nat, picks: seq<nat>) {
    && Ascending(picks) && |picks| <= limit
    && (forall j :: 0 <= j < |picks| ==> picks[j] < |rows| && Worth(rows[picks[j]], minConfidence))
    && (forall i: nat :: i < |rows| && Worth(rows[i], minConfidence) && i !in picks ==>
          |picks| == limit && forall j :: 0 <= j < |picks| ==> picks[j] < i)
  }

  lemma {:induction false} NewsAt(rows: seq<Row>, feed: seq<Item>) returns (firsts: seq<nat>)
    ensures AreFirsts(rows, feed, firsts)
    ensures (forall j :: 0 <= j < |firsts| ==> firsts[j] < |feed| && feed[firsts[j]].Some?)
    ensures News(Values(rows), feed) == ItemsAt(feed, firsts)
    decreases |feed|
  {
    hide News, Values, AreFirsts, IsNew;
    if feed == [] {
      firsts := [];
      NoFirsts(rows);
      NoNews(Values(rows));
    } else {
      firsts := NewsAt(rows, feed[..|feed| - 1]);
      NewsLast(Values(rows), feed);
      LastIsNew(rows, feed);
      FirstsOn(rows, feed, firsts);
      ItemsOn(feed, firsts);
      firsts := if IsNew(rows, feed, |feed| - 1) then firsts + [|feed| - 1] else firsts;
    }
  }

  lemma NoFirsts(rows: seq<Row>)
    ensures AreFirsts(rows, [], [])
  {
  }

  lemma ItemsOn(feed: seq<Item>, at: seq<nat>)
    requires feed != []
    requires forall j :: 0 <= j < |at| ==> at[j] < |feed| - 1 && feed[..|feed| - 1][at[j]].Some?
    ensures ItemsAt(feed, at) == ItemsAt(feed[..|feed| - 1], at)
    ensures feed[|feed| - 1].Some? ==> ItemsAt(feed, at + [|feed| - 1]) == ItemsAt(feed, at) + [feed[|feed| - 1].value]
  {
    var more := at + [|feed| - 1];
    assert forall j :: 0 <= j < |at| ==> more[j] == at[j];
    assert more[|at|] == |feed| - 1;
  }

  lemma LastIsNew(rows: seq<Row>, feed: seq<Item>)
    requires feed != []
    ensures
      var init, last := News(Values(rows), feed[..|feed| - 1]), feed[|feed| - 1];
      IsNew(rows, feed, |feed| - 1) <==> last.Some? && last.value.value !in Values(rows) && last.value.value !in Values(init)
  {
    hide News, Values;
    var init, last := feed[..|feed| - 1], feed[|feed| - 1];
    if last.Some? {
      var v := last.value.value;
      InValues(rows, v);
      if v in Values(News(Values(rows), init)) {
        SeenBefore(Values(rows), init, v);
        var j :| 0 <= j < |init| && init[j].Some? && init[j].value.value == v;
        assert feed[j] == init[j];
      } else if v !in Values(rows) {
        forall j | 0 <= j < |init| && feed[j].Some? ensures feed[j].value.value != v {
          if feed[j].value.value == v { InNews(rows, init, j); }
        }
      }
    }
  }

  lemma InValues(rows: seq<Row>, v: string)
    ensures v in Values(rows) <==> exists k :: 0 <= k < |rows| && rows[k].value == v
  {
  }

  /** A value of the feed that the store does not have is among the new ones. */
  lemma {:induction false} InNews(rows: seq<Row>, feed: seq<Item>, j: nat)
    requires j < |feed| && feed[j].Some? && feed[j].value.value !in Values(rows)
    ensures feed[j].value.value in Values(News(Values(rows), feed))
  {
    hide News, Values;
    var init, last := feed[..|feed| - 1], feed[|feed| - 1];
    NewsLast(Values(rows), feed);
    if last.Some? {
      ValuesConcat(News(Values(rows), init), [last.value]);
      OneValue(last.value);
    }
    if j < |init| {
      assert init[j] == feed[j];
      InNews(rows, init, j);
    }
  }

  lemma FirstsOn(rows: seq<Row>, feed: seq<Item>, firsts: seq<nat>)
    requires feed != [] && AreFirsts(rows, feed[..|feed| - 1], firsts)
    ensures if IsNew(rows, feed, |feed| - 1) then AreFirsts(rows, feed, firsts + [|feed| - 1]) else AreFirsts(rows, feed, firsts)
  {
    var init := feed[..|feed| - 1];
    forall i: nat | i < |init| ensures IsNew(rows, feed, i) <==> IsNew(rows, init, i) {
      assert forall j :: 0 <= j <= i ==> init[j] == feed[j];
    }
    forall j | 0 <= j < |firsts| ensures firsts[j] < |init| { assert firsts[j] in firsts && IsNew(rows, init, firsts[j]); }
  }

  lemma {:induction false} PicksOf(rows: seq<Row>, minConfidence: int) returns (all: seq<nat>)
    ensures Ascending(all) && (forall j :: 0 <= j < |all| ==> all[j] < |rows|)
    ensures forall i: nat :: i in all <==> i < |rows| && Worth(rows[i], minConfidence)
    ensures Alertable(rows, minConfidence) == RowsAt(rows, all)
  {
    if rows == [] {
      all := [];
    } else {
      var init, last := rows[..|rows| - 1], rows[|rows| - 1];
      var before := PicksOf(init, minConfidence);
      assert RowsAt(rows, before) == RowsAt(init, before);
      if Worth(last, minConfidence) {
        all := before + [|init|];
        assert RowsAt(rows, all) == RowsAt(rows, before) + [last];
      } else {
        all := before;
      }
      forall i: nat ensures i in all <==> i < |rows| && Worth(rows[i], minConfidence) {
        assert i < |init| ==> init[i] == rows[i];
        assert i in all <==> i in before || (i == |init| && Worth(last, minConfidence));
      }
    }
  }

  /** The alerts are for the first of the new rows that are worth one. */
  lemma AlertsAt(rows: seq<Row>, minConfidence: int, limit: nat) returns (picks: seq<nat>)
    ensures ArePicked(rows, minConfidence, limit, picks)
    ensures (forall j :: 0 <= j < |picks| ==> picks[j] < |rows|)
    ensures Take(Alertable(rows, minConfidence), limit) == RowsAt(rows, picks)
  {
    hide Alertable, Worth, ArePicked;
    var all := PicksOf(rows, minConfidence);
    picks := if |all| <= limit then all else all[..limit];
    assert Take(RowsAt(rows, all), limit) == RowsAt(rows, picks);
    PicksFirst(rows, minConfidence, limit, all);
  }

  lemma PicksFirst(rows: seq<Row>, minConfidence: int, limit: nat, all: seq<nat>)
    requires Ascending(all)
    requires forall i: nat :: i in all <==> i < |rows| && Worth(rows[i], minConfidence)
    ensures ArePicked(rows, minConfidence, limit, if |all| <= limit then all else all[..limit])
  {
    hide Worth;
    var picks := if |all| <= limit then all else all[..limit];
    assert forall j :: 0 <= j < |picks| ==> picks[j] == all[j] && all[j] in all;
    forall i: nat | i < |rows| && Worth(rows[i], minConfidence) && i !in picks
      ensures |picks| == limit && forall j :: 0 <= j < |picks| ==> picks[j] < i
    {
      assert i in all;
      var k :| 0 <= k < |all| && all[k] == i;
      if k < |picks| { assert picks[k] == i; }
    }
  }

  lemma {:induction false} SkippedCount(feed: seq<Item>)
    ensures Skipped(feed) == |set i | 0 <= i < |feed| && feed[i].None?|
  {
    if feed != [] {
      var init := feed[..|feed| - 1];
      SkippedCount(init);
      var a, b := (set i | 0 <= i < |init| && init[i].None?), (set i | 0 <= i < |feed| && feed[i].None?);
      assert b == a + (if feed[|feed| - 1].None? then {|feed| - 1} else {});
    }
  }

  // Families.

  /** The first item of its value in its sub-batch. */
  ghost predicate Leads(feed: seq<Item>, batch: nat, i: nat, v: string): (leads: bool)
    requires batch > 0
    ensures leads ==> i < |feed| && feed[i].Some?
  {
    && i < |feed| && feed[i].Some? && feed[i].value.value == v
    && forall j :: Start(i, batch) <= j < i && feed[j].Some? ==> feed[j].value.value != v
  }

  /** Where the sub-batch of the i-th item begins: 0, or a whole number of sub-batches on. */
  function Start(i: nat, batch: nat): (start: nat)
    requires batch > 0
    ensures start <= i < start + batch
  {
    if i < batch then 0 else Start(i - batch, batch) + batch
  }

  /** None of the first n items brings a family at the head of its sub-batch. */
  ghost predicate Silent(feed: seq<Item>, batch: nat, v: string, n: nat)
    requires batch > 0
  {
    forall i: nat :: i < n && Leads(feed, batch, i, v) ==> feed[i].value.family == ""
  }

  /** The family that the feed has for a value: that of the first item with one among
      those that lead their sub-batch. */
  ghost predicate LeadingFamily(feed: seq<Item>, batch: nat, v: string, family: string)
    requires batch > 0
  {
    if family == "" then Silent(feed, batch, v, |feed|)
    else exists i: nat :: Leads(feed, batch, i, v) && feed[i].value.family == family && Silent(feed, batch, v, i)
  }

  ghost predicate FirstWith(feed: seq<Item>, i: nat, v: string) {
    && i < |feed| && feed[i].Some? && feed[i].value.value == v
    && forall j :: 0 <= j < i && feed[j].Some? ==> feed[j].value.value != v
  }

  lemma {:induction false} FamilyInIs(feed: seq<Item>, v: string)
    ensures (forall j :: 0 <= j < |feed| && feed[j].Some? ==> feed[j].value.value != v) ==> FamilyIn(feed, v) == ""
    ensures forall i: nat :: FirstWith(feed, i, v) ==> FamilyIn(feed, v) == feed[i].value.family
  {
    if feed != [] {
      FamilyInIs(feed[1..], v);
      var rest := feed[1..];
      forall i: nat | FirstWith(feed, i, v) ensures FamilyIn(feed, v) == feed[i].value.family {
        if i > 0 {
          assert forall j :: 0 <= j < i ==> rest[j] == feed[j + 1];
          assert FirstWith(rest, i - 1, v);
        }
      }
    }
  }

  /** Leading in the rest of the feed is leading. */
  lemma LeadsLater(feed: seq<Item>, batch: nat, i: nat, v: string)
    requires batch > 0 && batch <= |feed|
    ensures Leads(feed[batch..], batch, i, v) <==> Leads(feed, batch, i + batch, v)
  {
    var rest := feed[batch..];
    assert Start(i + batch, batch) == Start(i, batch) + batch;
    if Leads(rest, batch, i, v) {
      forall j | Start(i + batch, batch) <= j < i + batch && feed[j].Some? ensures feed[j].value.value != v {
        assert rest[j - batch] == feed[j];
      }
    }
    if Leads(feed, batch, i + batch, v) {
      forall j | Start(i, batch) <= j < i && rest[j].Some? ensures rest[j].value.value != v {
        assert rest[j] == feed[j + batch];
      }
    }
  }

  lemma FirstOf(feed: seq<Item>, n: nat, v: string) returns (i: nat)
    requires n <= |feed| && exists j :: 0 <= j < n && feed[j].Some? && feed[j].value.value == v
    ensures i < n && feed[i].Some? && feed[i].value.value == v && forall j :: 0 <= j < i && feed[j].Some? ==> feed[j].value.value != v
  {
    if exists j :: 0 <= j < n - 1 && feed[j].Some? && feed[j].value.value == v {
      i := FirstOf(feed, n - 1, v);
    } else {
      i := n - 1;
    }
  }

  /** When the first sub-batch names a family, its first item of the value brings it. */
  lemma HeadLeads(feed: seq<Item>, batch: nat, v: string)
    requires batch > 0 && FamilyIn(feed[..Min(batch, |feed|)], v) != ""
    ensures LeadingFamily(feed, batch, v, FamilyIn(feed[..Min(batch, |feed|)], v))
  {
    hide FamilyIn;
    var k := Min(batch, |feed|);
    var chunk := feed[..k];
    FamilyInIs(chunk, v);
    var i := FirstOf(chunk, k, v);
    assert feed[i] == chunk[i] && forall j :: 0 <= j < i ==> chunk[j] == feed[j];
    assert FirstWith(chunk, i, v);
    assert Leads(feed, batch, i, v);
    assert Silent(feed, batch, v, i);
  }

  /** When it names none, none of its items brings one. */
  lemma HeadSilent(feed: seq<Item>, batch: nat, v: string)
    requires batch > 0 && FamilyIn(feed[..Min(batch, |feed|)], v) == ""
    ensures Silent(feed, batch, v, Min(batch, |feed|))
  {
    hide FamilyIn;
    var k := Min(batch, |feed|);
    var chunk := feed[..k];
    FamilyInIs(chunk, v);
    forall i: nat | i < k && Leads(feed, batch, i, v) ensures feed[i].value.family == "" {
      assert chunk[i] == feed[i] && forall j :: 0 <= j < i ==> chunk[j] == feed[j];
      assert FirstWith(chunk, i, v);
    }
  }

  lemma SilentOn(feed: seq<Item>, batch: nat, v: string, n: nat)
    requires 0 < batch <= |feed| && Silent(feed, batch, v, batch) && Silent(feed[batch..], batch, v, n)
    ensures Silent(feed, batch, v, batch + n)
  {
    hide Leads;
    forall i: nat | i < batch + n && Leads(feed, batch, i, v) ensures feed[i].value.family == "" {
      if i >= batch {
        LeadsLater(feed, batch, i - batch, v);
        assert feed[batch..][i - batch] == feed[i];
      }
    }
  }

  lemma {:induction false} FirstLeadingIs(feed: seq<Item>, batch: nat, v: string)
    requires batch > 0
    ensures LeadingFamily(feed, batch, v, FirstLeading(feed, batch, v))
    decreases |feed|
  {
    hide FamilyIn, Leads, Silent, LeadingFamily;
    if feed == [] {
      NobodyLeads(batch, v);
    } else {
      var k := Min(batch, |feed|);
      if FamilyIn(feed[..k], v) != "" {
        HeadLeads(feed, batch, v);
      } else {
        HeadSilent(feed, batch, v);
        FirstLeadingIs(feed[k..], batch, v);
        RestLeads(feed, batch, v, FirstLeading(feed[k..], batch, v));
      }
    }
  }

  lemma NobodyLeads(batch: nat, v: string)
    requires batch > 0
    ensures LeadingFamily([], batch, v, "")
  {
  }

  lemma RestLeads(feed: seq<Item>, batch: nat, v: string, f: string)
    requires batch > 0 && feed != [] && Silent(feed, batch, v, Min(batch, |feed|))
    requires LeadingFamily(feed[Min(batch, |feed|)..], batch, v, f)
    ensures LeadingFamily(feed, batch, v, f)
  {
    hide Leads, Silent;
    var k := Min(batch, |feed|);
    var rest := feed[k..];
    if f == "" {
      if k == batch { SilentOn(feed, batch, v, |rest|); }
    } else {
      var i: nat :| Leads(rest, batch, i, v) && rest[i].value.family == f && Silent(rest, batch, v, i);
      SilentOn(feed, batch, v, i);
      LeadsLater(feed, batch, i, v);
      assert feed[batch + i] == rest[i];
    }
  }

  // Counting the rows that got a family.

  /** The rows that had no family and have one now. */
  function Gains(before: seq<Row>, after: seq<Row>): set<int>
    requires |before| <= |after|
  {
    set i | 0 <= i < |before| && before[i].family == "" && after[i].family != ""
  }

  lemma {:induction false} AttributedIsGains(rows: seq<Row>, feed: seq<Item>)
    ensures Attributed(rows, feed) == |Gains(rows, Filled(rows, feed))|
  {
    if rows != [] {
      hide FamilyIn, Gains, Filled;
      AttributedIsGains(rows[..|rows| - 1], feed);
      GainsLast(rows, feed);
    } else {
      assert Gains([], Filled([], feed)) == {};
    }
  }

  lemma GainsLast(rows: seq<Row>, feed: seq<Item>)
    requires rows != []
    ensures
      var init, last := rows[..|rows| - 1], rows[|rows| - 1];
      |Gains(rows, Filled(rows, feed))|
        == |Gains(init, Filled(init, feed))| + if last.family == "" && FamilyIn(feed, last.value) != "" then 1 else 0
  {
    hide FamilyIn, Gains;
    var init, n := rows[..|rows| - 1], |rows| - 1;
    assert Filled(rows, feed)[..n] == Filled(init, feed);
    GainsSnoc(rows, Filled(rows, feed));
  }

  lemma GainsSnoc(before: seq<Row>, after: seq<Row>)
    requires |before| == |after| > 0
    ensures
      var n := |before| - 1;
      |Gains(before, after)| == |Gains(before[..n], after[..n])| + if before[n].family == "" && after[n].family != "" then 1 else 0
  {
    var n := |before| - 1;
    var a, b := Gains(before[..n], after[..n]), Gains(before, after);
    forall i ensures i in b - {n} <==> i in a {
      if 0 <= i < n { assert before[..n][i] == before[i] && after[..n][i] == after[i]; }
    }
    assert n !in a && b - {n} == a;
    assert b == if n in b then a + {n} else a;
  }

  /** What became of the rows of a state once the rest of the feed was in. */
  lemma RowsKept(rows: seq<Row>, feed: seq<Item>, batch: nat)
    requires batch > 0
    ensures
      var after := AfterAll(rows, feed, batch);
      && |after| == |rows| + |News(Values(rows), feed)|
      && (forall i :: 0 <= i < |rows| ==>
            after[i] == rows[i].(family := Prefer(rows[i].family, FirstLeading(feed, batch, rows[i].value))))
      && (forall j :: 0 <= j < |News(Values(rows), feed)| ==>
            var r := News(Values(rows), feed)[j]; after[|rows| + j] == r.(family := FirstLeading(feed, batch, r.value)))
  {
    hide News, FamilyAfter, FirstLeading, AfterAll, Values;
    var added := News(Values(rows), feed);
    AfterAllIs(rows, feed, batch);
    var base := rows + Bare(added);
    forall i | 0 <= i < |base|
      ensures Settled(base, feed, batch)[i] == base[i].(family := Prefer(base[i].family, FirstLeading(feed, batch, base[i].value)))
    {
      FamilyOfBatches(base[i].family, feed, batch, base[i].value);
    }
  }

  lemma {:induction false} AttributedAllIsGains(rows: seq<Row>, feed: seq<Item>, batch: nat)
    requires batch > 0
    ensures |AfterAll(rows, feed, batch)| == |rows| + |News(Values(rows), feed)|
    ensures AttributedAll(rows, feed, batch) == |Gains(rows + News(Values(rows), feed), AfterAll(rows, feed, batch))|
    decreases |feed|
  {
    hide News, AfterAll, AttributedAll, Attributed, AfterBatch, Values, Filled, FirstLeading, Gains;
    RowsKept(rows, feed, batch);
    if feed == [] {
      NoNews(Values(rows));
      NoGains(rows, batch);
    } else {
      var k := Min(batch, |feed|);
      var chunk, rest := feed[..k], feed[k..];
      assert chunk + rest == feed;
      AttributedAllIsGains(AfterBatch(rows, chunk), rest, batch);
      GainsStep(rows, chunk, rest, feed, batch);
    }
  }

  lemma NoGains(rows: seq<Row>, batch: nat)
    requires batch > 0
    ensures AfterAll(rows, [], batch) == rows && AttributedAll(rows, [], batch) == 0
    ensures Gains(rows + [], rows) == {}
  {
    assert rows + [] == rows;
  }

  lemma GainsStep(rows: seq<Row>, chunk: seq<Item>, rest: seq<Item>, feed: seq<Item>, batch: nat)
    requires batch > 0 && feed != [] && chunk == feed[..Min(batch, |feed|)] && rest == feed[Min(batch, |feed|)..] && chunk + rest == feed
    requires |AfterAll(AfterBatch(rows, chunk), rest, batch)|
          == |AfterBatch(rows, chunk)| + |News(Values(AfterBatch(rows, chunk)), rest)|
    requires AttributedAll(AfterBatch(rows, chunk), rest, batch)
          == |Gains(AfterBatch(rows, chunk) + News(Values(AfterBatch(rows, chunk)), rest), AfterAll(AfterBatch(rows, chunk), rest, batch))|
    requires |AfterAll(rows, feed, batch)| == |rows| + |News(Values(rows), feed)|
    ensures AttributedAll(rows, feed, batch) == |Gains(rows + News(Values(rows), feed), AfterAll(rows, feed, batch))|
  {
    hide News, AfterAll, AttributedAll, Attributed, Values, FirstLeading, Gains, Filled;
    var mid, end := AfterBatch(rows, chunk), AfterAll(rows, feed, batch);
    OneMoreBatch(rows, feed, batch);
    AttributedIsGains(rows, chunk);
    BatchValues(rows, chunk);
    NewsConcat(Values(rows), chunk, rest);
    var added, later := News(Values(rows), chunk), News(Values(mid), rest);
    var filled := Filled(rows, chunk);
    assert mid == filled + added;
    assert rows + (added + later) == rows + added + later;
    RowsKept(mid, rest, batch);
    forall i | 0 <= i < |mid| ensures mid[i].family != "" ==> end[i].family == mid[i].family { }
    FilledKeeps(rows, chunk);
    SplitGains(rows, added + later, filled, end);
    assert filled + added + later == filled + (added + later);
  }

  lemma FilledKeeps(rows: seq<Row>, feed: seq<Item>)
    ensures forall i :: 0 <= i < |rows| && rows[i].family != "" ==> Filled(rows, feed)[i].family == rows[i].family
  {
  }

  lemma OneMoreBatch(rows: seq<Row>, feed: seq<Item>, batch: nat)
    requires batch > 0 && feed != []
    ensures
      var k := Min(batch, |feed|);
      && AfterAll(rows, feed, batch) == AfterAll(AfterBatch(rows, feed[..k]), feed[k..], batch)
      && AttributedAll(rows, feed, batch)
           == Attributed(rows, feed[..k]) + AttributedAll(AfterBatch(rows, feed[..k]), feed[k..], batch)
  {
    hide AfterBatch, Attributed;
  }

  /** Rows gain a family in the first stretch or in the rest, and not in both. */
  lemma SplitGains(rows: seq<Row>, more: seq<Row>, filled: seq<Row>, end: seq<Row>)
    requires |filled| == |rows| && |end| == |rows| + |more|
    requires forall i :: 0 <= i < |rows| && rows[i].family != "" ==> filled[i].family == rows[i].family
    requires forall i :: 0 <= i < |filled| && filled[i].family != "" ==> end[i].family == filled[i].family
    ensures |Gains(rows + more, end)| == |Gains(rows, filled)| + |Gains(filled + more, end)|
  {
    var a, b, c := Gains(rows, filled), Gains(filled + more, end), Gains(rows + more, end);
    assert a !! b;
    forall i ensures i in c <==> i in a || i in b { }
    assert c == a + b;
  }

  /** What the import did, item by item: the rows of the store stay and keep the family
      they had; after them come the items that are first of their value and new, in feed
      order; a row without a family has that of the first item with one that leads its
      sub-batch; up to ten alerts are for the first of the new that are worth one; and the
      counts are of these. */
  ghost predicate AsFed(rows: seq<Row>, feed: seq<Item>, batch: nat, minConfidence: int, firsts: seq<nat>, picks: seq<nat>,
                        after: seq<Row>, raised: seq<Row>, t: Result)
    requires batch > 0
  {
    && AreFirsts(rows, feed, firsts) && (forall j :: 0 <= j < |firsts| ==> firsts[j] < |feed| && feed[firsts[j]].Some?)
    && var all := rows + ItemsAt(feed, firsts);
    && |after| == |all|
    && (forall i :: 0 <= i < |all| ==> after[i].(family := "") == all[i].(family := ""))
    && (forall i :: 0 <= i < |all| && all[i].family != "" ==> after[i].family == all[i].family)
    && (forall i :: 0 <= i < |all| && all[i].family == "" ==> LeadingFamily(feed, batch, all[i].value, after[i].family))
    && ArePicked(ItemsAt(feed, firsts), minConfidence, 10, picks)
    && (forall j :: 0 <= j < |picks| ==> picks[j] < |firsts|) && raised == RowsAt(ItemsAt(feed, firsts), picks)
    && t.total == |feed| && t.imported == |firsts| && t.alertsRaised == |picks|
    && t.skipped == (|set i | 0 <= i < |feed| && feed[i].None?|) && t.imported + t.duplicates + t.skipped == |feed|
    && t.attributed == |Gains(all, after)|
  }

  /** The family of a new row that brings its own is the first one named at the head of a
      sub-batch. */
  lemma NewsLead(rows: seq<Row>, feed: seq<Item>, batch: nat, i: nat)
    requires batch > 0 && IsNew(rows, feed, i) && feed[i].value.family != ""
    ensures FirstLeading(feed, batch, feed[i].value.value) == feed[i].value.family
  {
    hide FirstLeading;
    var v := feed[i].value.value;
    FirstLeadingIs(feed, batch, v);
    assert Leads(feed, batch, i, v);
  }

  lemma ImportedAsFed(rows: seq<Row>, feed: seq<Item>, batch: nat, minConfidence: int, t: Result)
    returns (firsts: seq<nat>, picks: seq<nat>)
    requires batch > 0
    requires
      var added := News(Values(rows), feed);
      && t.total == |feed| && t.imported == |added| && t.skipped == Skipped(feed) && t.imported + t.duplicates + t.skipped == |feed|
      && t.alertsRaised == |Take(Alertable(added, minConfidence), MAX_ALERTS)| && t.attributed == AttributedAll(rows, feed, batch)
    ensures AsFed(rows, feed, batch, minConfidence, firsts, picks, AfterAll(rows, feed, batch),
                  Take(Alertable(News(Values(rows), feed), minConfidence), MAX_ALERTS), t)
  {
    hide News, Values, AfterAll, AttributedAll, Alertable, Take, FirstLeading, LeadingFamily, AreFirsts, ArePicked, Gains, Skipped;
    firsts := NewsAt(rows, feed);
    var added := ItemsAt(feed, firsts);
    picks := AlertsAt(added, minConfidence, MAX_ALERTS);
    SkippedCount(feed);
    RowsKept(rows, feed, batch);
    AttributedAllIsGains(rows, feed, batch);
    var after := AfterAll(rows, feed, batch);
    forall j | 0 <= j < |firsts|
      ensures after[|rows| + j] == feed[firsts[j]].value.(family := FirstLeading(feed, batch, feed[firsts[j]].value.value))
    {
      assert News(Values(rows), feed)[j] == feed[firsts[j]].value;
    }
    FamiliesAre(rows, feed, batch, firsts, after);
  }

  lemma FamiliesAre(rows: seq<Row>, feed: seq<Item>, batch: nat, firsts: seq<nat>, after: seq<Row>)
    requires batch > 0 && AreFirsts(rows, feed, firsts) && (forall j :: 0 <= j < |firsts| ==> firsts[j] < |feed| && feed[firsts[j]].Some?)
    requires |after| == |rows| + |firsts|
    requires forall i :: 0 <= i < |rows| ==>
      after[i] == rows[i].(family := Prefer(rows[i].family, FirstLeading(feed, batch, rows[i].value)))
    requires forall j :: 0 <= j < |firsts| ==>
      var r := feed[firsts[j]].value; after[|rows| + j] == r.(family := FirstLeading(feed, batch, r.value))
    ensures
      var all := rows + ItemsAt(feed, firsts);
      && (forall i :: 0 <= i < |all| ==> after[i].(family := "") == all[i].(family := ""))
      && (forall i :: 0 <= i < |all| && all[i].family != "" ==> after[i].family == all[i].family)
      && (forall i :: 0 <= i < |all| && all[i].family == "" ==> LeadingFamily(feed, batch, all[i].value, after[i].family))
  {
    hide FirstLeading, LeadingFamily, IsNew;
    var all := rows + ItemsAt(feed, firsts);
    forall i | 0 <= i < |all|
      ensures after[i].(family := "") == all[i].(family := "")
      ensures all[i].family != "" ==> after[i].family == all[i].family
      ensures all[i].family == "" ==> LeadingFamily(feed, batch, all[i].value, after[i].family)
    {
      FirstLeadingIs(feed, batch, all[i].value);
      if i >= |rows| && all[i].family != "" {
        assert firsts[i - |rows|] in firsts;
        NewsLead(rows, feed, batch, firsts[i - |rows|]);
      }
    }
  }
}
