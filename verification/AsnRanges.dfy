/** Network ownership: address ranges keyed by fixed-width hex text, and the lookup
    that seeks the last range starting at or before an address. */
module AsnRanges {
  import opened Options

  // ---------------------------------------------------------------------
  // Keys
  // ---------------------------------------------------------------------

  function Pow16(width: nat): (p: nat)
    ensures p > 0
  {
    if width == 0 then 1 else 16 * Pow16(width - 1)
  }

  function HexDigit(d: nat): (c: char)
    requires d < 16
  {
    "0123456789abcdef"[d]
  }

  /** `format(n, "0<width>x")` for a number that fits the width. */
  function Hex(width: nat, n: nat): (s: string)
    requires n < Pow16(width)
    ensures |s| == width
  {
    if width == 0 then "" else Hex(width - 1, n / 16) + [HexDigit(n % 16)]
  }

  /** The database's text order. */
  predicate TextLess(a: string, b: string) {
    b != "" && (a == "" || a[0] < b[0] || (a[0] == b[0] && TextLess(a[1..], b[1..])))
  }

  predicate TextAtMost(a: string, b: string) {
    a == b || TextLess(a, b)
  }

  lemma DigitOrder(d: nat, e: nat)
    requires d < 16 && e < 16
    ensures HexDigit(d) < HexDigit(e) <==> d < e
    ensures HexDigit(d) == HexDigit(e) <==> d == e
  {
  }

  lemma {:induction false} TextLessSnoc(a: string, b: string, c: char, d: char)
    requires |a| == |b|
    ensures TextLess(a + [c], b + [d]) <==> TextLess(a, b) || (a == b && c < d)
  {
    if a == "" {
      assert a + [c] == [c] && b + [d] == [d];
    } else {
      assert (a + [c])[1..] == a[1..] + [c] && (b + [d])[1..] == b[1..] + [d];
      TextLessSnoc(a[1..], b[1..], c, d);
      assert a == [a[0]] + a[1..] && b == [b[0]] + b[1..];
    }
  }

  /** Text order of the keys of one width is the numeric order of the addresses. */
  lemma {:induction false} HexOrder(width: nat, n: nat, m: nat)
    requires n < Pow16(width) && m < Pow16(width)
    ensures TextLess(Hex(width, n), Hex(width, m)) <==> n < m
    ensures Hex(width, n) == Hex(width, m) <==> n == m
  {
    if width > 0 {
      var a, b := Hex(width - 1, n / 16), Hex(width - 1, m / 16);
      var c, d := HexDigit(n % 16), HexDigit(m % 16);
      HexOrder(width - 1, n / 16, m / 16);
      DigitOrder(n % 16, m % 16);
      TextLessSnoc(a, b, c, d);
      assert (a + [c])[..width - 1] == a && (b + [d])[..width - 1] == b;
      assert (a + [c])[width - 1] == c && (b + [d])[width - 1] == d;
    }
  }

  lemma {:induction false} TextTransitive(a: string, b: string, c: string)
    requires TextAtMost(a, b) && TextAtMost(b, c)
    ensures TextAtMost(a, c)
  {
    if a != b && b != c && a != "" {
      if a[0] == b[0] && b[0] == c[0] {
        TextTransitive(a[1..], b[1..], c[1..]);
        assert a == [a[0]] + a[1..] && c == [c[0]] + c[1..];
      }
    }
  }

  lemma {:induction false} TextTotal(a: string, b: string)
    ensures TextAtMost(a, b) || TextAtMost(b, a)
  {
    if a != "" && b != "" && a[0] == b[0] {
      TextTotal(a[1..], b[1..]);
      assert a == [a[0]] + a[1..] && b == [b[0]] + b[1..];
    }
  }

  // ---------------------------------------------------------------------
  // Addresses and rows
  // ---------------------------------------------------------------------

  datatype Family = V4 | V6

  function Width(family: Family): nat {
    if family == V4 then 8 else 32
  }

  datatype AnyAddress = Address(family: Family, number: nat)

  type Address = a: AnyAddress | a.number < Pow16(Width(a.family)) witness Address(V4, 0)

  function HexKey(a: Address): string {
    Hex(Width(a.family), a.number)
  }

  datatype Row = Row(family: Family, first: string, last: string, owner: Owner)
  datatype Owner = Owner(asn: int, country: string, description: string)

  /** A line of the data set after the split at tabs: a field that is no number or
      no address is `None`. */
  datatype Line =
    | Short
    | Fields(start: Option<Address>, end: Option<Address>, asn: Option<int>, country: string, description: string)

  function ParseLine(line: Line): Option<Row> {
    if line.Short? || line.asn.None? || line.asn.value == 0 then None
    else if line.start.None? || line.end.None? then None
    else if line.start.value.family != line.end.value.family then None
    else Some(Row(line.start.value.family, HexKey(line.start.value), HexKey(line.end.value),
                  Owner(line.asn.value, line.country, line.description)))
  }

  function ParseDataset(lines: seq<Line>): seq<Row> {
    if lines == [] then []
    else
      var row := ParseLine(lines[0]);
      (if row.Some? then [row.value] else []) + ParseDataset(lines[1..])
  }

  predicate Announced(line: Line) {
    ParseLine(line).Some?
  }

  /** The address lies in the line's range, as numbers of one family. */
  predicate Covers(line: Line, a: Address) {
    Announced(line) && line.start.value.family == a.family
    && line.start.value.number <= a.number <= line.end.value.number
  }

  // ---------------------------------------------------------------------
  // Loading
  // ---------------------------------------------------------------------

  const BATCH := 20_000

  class AsnTable {
    var rows: seq<Row>

    constructor ()
      ensures rows == []
    {
      rows := [];
    }

    /** One `executemany`. */
    method Insert(batch: seq<Row>)
      modifies this
      ensures rows == old(rows) + batch
    {
      rows := rows + batch;
    }

    /** Replaces the table by the rows, each stored once and in order, whatever is
        left over after the last full batch included. */
    method LoadRows(feed: seq<Row>) returns (total: nat)
      modifies this
      ensures rows == feed && total == |feed|
    {
      var batch: seq<Row> := [];
      total := 0;
      rows := [];
      for i := 0 to |feed|
        invariant rows + batch == feed[..i]
        invariant total == |rows| && |batch| < BATCH
      {
        batch := batch + [feed[i]];
        assert rows + batch == feed[..i + 1];
        if |batch| >= BATCH {
          Insert(batch);
          total := total + |batch|;
          batch := [];
        }
      }
      assert feed[..|feed|] == feed;
      if batch != [] {
        Insert(batch);
        total := total + |batch|;
      }
    }
  }

  // ---------------------------------------------------------------------
  // Lookup
  // ---------------------------------------------------------------------

  predicate StartsBefore(row: Row, family: Family, key: string) {
    row.family == family && TextAtMost(row.first, key)
  }

  /** What `WHERE family = ? AND start_hex <= ? ORDER BY start_hex DESC LIMIT 1`
      promises: some candidate no other candidate starts after. */
  ghost predicate LastStart(rows: seq<Row>, family: Family, key: string, picked: Option<Row>) {
    match picked
    case None => forall i :: 0 <= i < |rows| ==> !StartsBefore(rows[i], family, key)
    case Some(row) =>
      && row in rows && StartsBefore(row, family, key)
      && forall i :: 0 <= i < |rows| && StartsBefore(rows[i], family, key) ==> TextAtMost(rows[i].first, row.first)
  }

  function Seek(rows: seq<Row>, family: Family, key: string): (picked: Option<Row>)
    ensures LastStart(rows, family, key, picked)
  {
    if rows == [] then None
    else
      var rest := Seek(rows[1..], family, key);
      assert forall i :: 1 <= i < |rows| ==> rows[i] == rows[1..][i - 1];
      if !StartsBefore(rows[0], family, key) then rest
      else if rest.None? then Some(rows[0])
      else if TextLess(rows[0].first, rest.value.first) then rest
      else
        SeekHead(rows, rest.value, family, key);
        Some(rows[0])
  }

  lemma SeekHead(rows: seq<Row>, best: Row, family: Family, key: string)
    requires rows != [] && LastStart(rows[1..], family, key, Some(best))
    requires !TextLess(rows[0].first, best.first)
    ensures forall i :: 0 <= i < |rows| && StartsBefore(rows[i], family, key) ==> TextAtMost(rows[i].first, rows[0].first)
  {
    TextTotal(rows[0].first, best.first);
    forall i | 0 <= i < |rows| && StartsBefore(rows[i], family, key)
      ensures TextAtMost(rows[i].first, rows[0].first)
    {
      if i > 0 {
        assert rows[i] == rows[1..][i - 1];
        TextTransitive(rows[i].first, best.first, rows[0].first);
      }
    }
  }

  datatype Answer = NotAnAddress | Reserved | NotAnnounced | OwnedBy(owner: Owner)

  /** `value` is the parsed input; `reserved` tells private, loopback, link-local and
      multicast addresses. */
  function Lookup(rows: seq<Row>, value: Option<Address>, reserved: Address -> bool): Answer {
    if value.None? then NotAnAddress
    else if reserved(value.value) then Reserved
    else
      var key := HexKey(value.value);
      var row := Seek(rows, value.value.family, key);
      if row.None? || !(TextAtMost(row.value.first, key) && TextAtMost(key, row.value.last)) then NotAnnounced
      else OwnedBy(row.value.owner)
  }

  lemma {:induction false} ParsedRows(lines: seq<Line>, row: Row)
    requires row in ParseDataset(lines)
    ensures exists i :: 0 <= i < |lines| && ParseLine(lines[i]) == Some(row)
  {
    if ParseLine(lines[0]) != Some(row) {
      ParsedRows(lines[1..], row);
      var i :| 0 <= i < |lines[1..]| && ParseLine(lines[1..][i]) == Some(row);
      assert ParseLine(lines[i + 1]) == Some(row);
    }
  }

  lemma {:induction false} RowsOfLines(lines: seq<Line>, i: nat)
    requires i < |lines| && Announced(lines[i])
    ensures ParseLine(lines[i]).value in ParseDataset(lines)
  {
    if i > 0 {
      RowsOfLines(lines[1..], i - 1);
    }
  }

  /** Ranges read forwards and apart from each other. */
  ghost predicate Disjoint(lines: seq<Line>) {
    && (forall i :: 0 <= i < |lines| && Announced(lines[i]) ==>
          lines[i].start.value.number <= lines[i].end.value.number)
    && (forall i, j, a: Address :: 0 <= i < j < |lines| ==> !(Covers(lines[i], a) && Covers(lines[j], a)))
  }

  /** The text comparisons of the query decide exactly the numeric ones. */
  lemma KeysCompare(line: Line, a: Address)
    requires Announced(line)
    ensures StartsBefore(ParseLine(line).value, a.family, HexKey(a)) <==>
              line.start.value.family == a.family && line.start.value.number <= a.number
    ensures line.start.value.family == a.family ==>
              (TextAtMost(HexKey(a), ParseLine(line).value.last) <==> a.number <= line.end.value.number)
  {
    if line.start.value.family == a.family {
      HexOrder(Width(a.family), line.start.value.number, a.number);
      HexOrder(Width(a.family), a.number, line.end.value.number);
    }
  }

  /** The query finds the covering range: any other candidate that started later
      would begin inside it. */
  lemma {:induction false} SeekFindsCover(lines: seq<Line>, i: nat, a: Address)
    requires Disjoint(lines) && i < |lines| && Covers(lines[i], a)
    ensures Seek(ParseDataset(lines), a.family, HexKey(a)) == Some(ParseLine(lines[i]).value)
  {
    var rows, key := ParseDataset(lines), HexKey(a);
    var mine := ParseLine(lines[i]).value;
    RowsOfLines(lines, i);
    KeysCompare(lines[i], a);
    var picked := Seek(rows, a.family, key);
    var k :| 0 <= k < |rows| && rows[k] == mine;
    assert StartsBefore(rows[k], a.family, key);
    assert picked.Some?;
    ParsedRows(lines, picked.value);
    var j :| 0 <= j < |lines| && ParseLine(lines[j]) == picked;
    KeysCompare(lines[j], a);
    StartInside(lines[i], lines[j], a);
    if j != i {
      var s: Address := lines[j].start.value;
      assert Covers(lines[i], s) && Covers(lines[j], s);
    }
  }

  lemma StartInside(mine: Line, other: Line, a: Address)
    requires Covers(mine, a) && Announced(other)
    requires other.start.value.family == a.family && other.start.value.number <= a.number
    requires TextAtMost(ParseLine(mine).value.first, ParseLine(other).value.first)
    ensures Covers(mine, other.start.value)
  {
    HexOrder(Width(a.family), mine.start.value.number, other.start.value.number);
  }

  /** For every data set of disjoint ranges, `Lookup` on the loaded rows names the
      owner of the range that covers the address, and says "not announced" exactly
      when no range does. */
  lemma {:induction false} LookupIsExact(lines: seq<Line>, a: Address, reserved: Address -> bool)
    requires Disjoint(lines) && !reserved(a)
    ensures forall i :: 0 <= i < |lines| && Covers(lines[i], a) ==>
              Lookup(ParseDataset(lines), Some(a), reserved) == OwnedBy(ParseLine(lines[i]).value.owner)
    ensures (forall i :: 0 <= i < |lines| ==> !Covers(lines[i], a)) ==>
              Lookup(ParseDataset(lines), Some(a), reserved) == NotAnnounced
  {
    var rows, key := ParseDataset(lines), HexKey(a);
    forall i | 0 <= i < |lines| && Covers(lines[i], a)
      ensures Lookup(rows, Some(a), reserved) == OwnedBy(ParseLine(lines[i]).value.owner)
    {
      SeekFindsCover(lines, i, a);
      KeysCompare(lines[i], a);
    }
    var picked := Seek(rows, a.family, key);
    if picked.Some? {
      ParsedRows(lines, picked.value);
      var j :| 0 <= j < |lines| && ParseLine(lines[j]) == picked;
      KeysCompare(lines[j], a);
    }
  }

  /** Of the address's family, and starts at or before it. */
  predicate Candidate(line: Line, a: Address) {
    Announced(line) && line.start.value.family == a.family && line.start.value.number <= a.number
  }

  /** The one candidate that starts last. */
  ghost predicate StartsLast(lines: seq<Line>, j: nat, a: Address) {
    && j < |lines| && Candidate(lines[j], a)
    && forall k :: 0 <= k < |lines| && k != j && Candidate(lines[k], a) ==>
         lines[k].start.value.number < lines[j].start.value.number
  }

  lemma SeekFindsLast(lines: seq<Line>, j: nat, a: Address)
    requires StartsLast(lines, j, a)
    ensures Seek(ParseDataset(lines), a.family, HexKey(a)) == Some(ParseLine(lines[j]).value)
  {
    hide Hex, Pow16, TextLess, ParseDataset;
    var rows, key := ParseDataset(lines), HexKey(a);
    RowsOfLines(lines, j);
    KeysCompare(lines[j], a);
    var picked := Seek(rows, a.family, key);
    var r :| 0 <= r < |rows| && rows[r] == ParseLine(lines[j]).value;
    assert StartsBefore(rows[r], a.family, key);
    assert picked.Some?;
    ParsedRows(lines, picked.value);
    var m :| 0 <= m < |lines| && ParseLine(lines[m]) == picked;
    KeysCompare(lines[m], a);
    HexOrder(Width(a.family), lines[j].start.value.number, lines[m].start.value.number);
  }

  /** On any data set, disjoint or not: when one line starts last at or before the
      address, the answer is its owner, and "not announced" if and only if that line
      ends before the address, whichever other ranges cover it. */
  lemma LookupGoesByStart(lines: seq<Line>, j: nat, a: Address, reserved: Address -> bool)
    requires StartsLast(lines, j, a) && !reserved(a)
    ensures Lookup(ParseDataset(lines), Some(a), reserved) == NotAnnounced <==> lines[j].end.value.number < a.number
    ensures a.number <= lines[j].end.value.number ==>
              Lookup(ParseDataset(lines), Some(a), reserved) == OwnedBy(ParseLine(lines[j]).value.owner)
  {
    hide Hex, Pow16, TextLess, ParseDataset, Seek;
    SeekFindsLast(lines, j, a);
    KeysCompare(lines[j], a);
  }

  function LowAddress(n: nat): Address
    requires n < 256
  {
    assert 256 == 16 * Pow16(1) && Pow16(2) == 256 && Pow16(3) <= Pow16(4) <= Pow16(5) <= Pow16(6) <= Pow16(7) <= Pow16(8);
    Address(V4, n)
  }

  /** So without disjointness a covered address can be missed: inside a wider range,
      past the end of a nested one. */
  lemma NestedRangeHidesOuter(outer: Line, inner: Line)
    requires outer == Fields(Some(LowAddress(0)), Some(LowAddress(100)), Some(1), "", "")
    requires inner == Fields(Some(LowAddress(10)), Some(LowAddress(20)), Some(2), "", "")
    ensures Covers(outer, LowAddress(50))
    ensures Lookup(ParseDataset([outer, inner]), Some(LowAddress(50)), _ => false) == NotAnnounced
  {
    hide Hex, Pow16, TextLess, ParseDataset, Lookup;
    LookupGoesByStart([outer, inner], 1, LowAddress(50), _ => false);
  }
}
