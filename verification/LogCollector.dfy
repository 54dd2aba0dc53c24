/** The log shipper: tailing an append-only file, shipping its lines in batches and
    checkpointing the offset, through failed ships, crashes and lost state. */
module LogCollector {
  import opened Collections
  import opened FirstReceipts
  import opened Options

  type byte = b: int | 0 <= b < 256

  const NL: byte := 10
  const CR: byte := 13

  // ---------------------------------------------------------------------
  // Lines of a file
  // ---------------------------------------------------------------------

  /** A shipped line, with the offset it starts at (which the receiver never sees). */
  datatype Line = Line(at: nat, text: seq<byte>)

  /** The length of the complete line at `off`, newline included; 0 when the file
      ends before one. */
  function LineLen(file: seq<byte>, off: nat): (k: nat)
    requires off <= |file|
    ensures off + k <= |file|
    ensures k > 0 ==> file[off + k - 1] == NL
    decreases |file| - off
  {
    if off == |file| then 0
    else if file[off] == NL then 1
    else
      var k := LineLen(file, off + 1);
      if k == 0 then 0 else k + 1
  }

  /** It ends at the first newline. */
  lemma {:induction false} LineLenFirst(file: seq<byte>, off: nat, i: nat)
    requires off <= i < |file| && file[i] == NL
    ensures 0 < LineLen(file, off) <= i - off + 1
    decreases i - off
  {
    if file[off] != NL {
      LineLenFirst(file, off + 1, i);
    }
  }

  function RStrip(s: seq<byte>, c: byte): seq<byte> {
    if s != [] && s[|s| - 1] == c then RStrip(s[..|s| - 1], c) else s
  }

  /** `raw.rstrip("\n").rstrip("\r")` */
  function TextOf(raw: seq<byte>): seq<byte> {
    RStrip(RStrip(raw, NL), CR)
  }

  /** The complete line at `off`, unless it is blank. */
  function LineAt(file: seq<byte>, off: nat): (line: seq<Line>)
    requires off <= |file|
    ensures |line| <= 1 && forall i :: 0 <= i < |line| ==> line[i].at == off
  {
    var text := TextOf(file[off..off + LineLen(file, off)]);
    if text == [] then [] else [Line(off, text)]
  }

  /** The non-blank complete lines that start at or after `a` and end by `b`. */
  function NonBlank(file: seq<byte>, a: nat, b: nat): seq<Line>
    requires a <= b <= |file|
    decreases b - a
  {
    var k := LineLen(file, a);
    if k == 0 || a + k > b then [] else LineAt(file, a) + NonBlank(file, a + k, b)
  }

  function AllLines(file: seq<byte>): seq<Line> {
    NonBlank(file, 0, |file|)
  }

  /** The start of the file, or just after a newline. */
  predicate Boundary(file: seq<byte>, o: nat) {
    o <= |file| && (o == 0 || file[o - 1] == NL)
  }

  lemma {:induction false} LineLenAppend(file: seq<byte>, more: seq<byte>, off: nat)
    requires off <= |file|
    ensures LineLen(file, off) > 0 ==> LineLen(file + more, off) == LineLen(file, off)
    ensures LineLen(file, off) == 0 && LineLen(file + more, off) > 0 ==> off + LineLen(file + more, off) > |file|
    decreases |file| - off
  {
    if off < |file| {
      assert (file + more)[off] == file[off];
      LineLenAppend(file, more, off + 1);
    }
  }

  lemma LineAtAppend(file: seq<byte>, more: seq<byte>, off: nat)
    requires off <= |file| && LineLen(file, off) > 0
    ensures LineAt(file + more, off) == LineAt(file, off)
  {
    hide LineLen, TextOf;
    LineLenAppend(file, more, off);
    SliceOfPrefix(file, more, off, off + LineLen(file, off));
  }

  lemma SliceOfPrefix<T>(s: seq<T>, more: seq<T>, a: nat, b: nat)
    requires a <= b <= |s|
    ensures (s + more)[a..b] == s[a..b]
  {
  }

  lemma {:induction false} NonBlankFrom(file: seq<byte>, a: nat, b: nat)
    requires a <= b <= |file|
    ensures
      var k := LineLen(file, a);
      NonBlank(file, a, b) == if k == 0 || a + k > b then [] else LineAt(file, a) + NonBlank(file, a + k, b)
  {
    hide LineLen, LineAt;
  }

  lemma {:induction false} NonBlankAppend(file: seq<byte>, more: seq<byte>, a: nat, b: nat)
    requires a <= b <= |file|
    ensures NonBlank(file + more, a, b) == NonBlank(file, a, b)
    decreases b - a
  {
    hide LineLen, LineAt, NonBlank;
    LineLenAppend(file, more, a);
    NonBlankFrom(file, a, b);
    NonBlankFrom(file + more, a, b);
    var k := LineLen(file, a);
    if k > 0 && a + k <= b {
      LineAtAppend(file, more, a);
      NonBlankAppend(file, more, a + k, b);
    }
  }

  lemma {:induction false} NonBlankGrows(file: seq<byte>, a: nat, b: nat, c: nat)
    requires a <= b <= c <= |file|
    ensures NonBlank(file, a, b) <= NonBlank(file, a, c)
    decreases b - a
  {
    var k := LineLen(file, a);
    if k > 0 && a + k <= b {
      NonBlankGrows(file, a + k, b, c);
    }
  }

  lemma {:induction false} NonBlankSplit(file: seq<byte>, a: nat, b: nat, c: nat)
    requires a <= b <= c <= |file| && Boundary(file, b)
    ensures NonBlank(file, a, c) == NonBlank(file, a, b) + NonBlank(file, b, c)
    decreases b - a
  {
    hide LineLen, LineAt, NonBlank;
    NonBlankFrom(file, a, b);
    NonBlankFrom(file, a, c);
    if a < b {
      var k := LineLen(file, a);
      LineLenFirst(file, a, b - 1);
      NonBlankSplit(file, a + k, b, c);
      var here, mid, rest := LineAt(file, a), NonBlank(file, a + k, b), NonBlank(file, b, c);
      assert here + (mid + rest) == here + mid + rest;
    }
  }

  lemma {:induction false} NonBlankOrdered(file: seq<byte>, a: nat, b: nat)
    requires a <= b <= |file|
    ensures forall i :: 0 <= i < |NonBlank(file, a, b)| ==> a <= NonBlank(file, a, b)[i].at < b
    ensures forall i, j :: 0 <= i < j < |NonBlank(file, a, b)| ==> NonBlank(file, a, b)[i].at < NonBlank(file, a, b)[j].at
    decreases b - a
  {
    var k := LineLen(file, a);
    if k > 0 && a + k <= b {
      NonBlankOrdered(file, a + k, b);
    }
  }

  /** Appending to the file only adds lines at the end. */
  lemma AllLinesGrow(file: seq<byte>, more: seq<byte>)
    ensures AllLines(file) <= AllLines(file + more)
  {
    NonBlankAppend(file, more, 0, |file|);
    NonBlankGrows(file + more, 0, |file|, |file + more|);
  }

  // ---------------------------------------------------------------------
  // Lines, byte by byte
  // ---------------------------------------------------------------------

  /** The bytes from `at` to `end` are a complete line that begins at `from` or after a
      newline beyond it: the text, then zero or more carriage returns, then the first
      newline. */
  ghost predicate LineIn(file: seq<byte>, from: nat, at: nat, text: seq<byte>, end: nat) {
    && from <= at && (at == from || (at <= |file| && file[at - 1] == 10))
    && at + |text| < end <= |file| && file[at..at + |text|] == text && file[end - 1] == 10
    && (forall i :: at + |text| <= i < end - 1 ==> file[i] == 13)
    && 10 !in text && (text == [] || text[|text| - 1] != 13)
  }

  /** Such a line that ends by `b`. */
  ghost predicate LineBy(file: seq<byte>, from: nat, at: nat, text: seq<byte>, b: nat) {
    exists end: nat :: end <= b && LineIn(file, from, at, text, end)
  }

  lemma {:induction false} RStripIs(s: seq<byte>, c: byte)
    ensures
      var t := RStrip(s, c);
      && t <= s && (forall i :: |t| <= i < |s| ==> s[i] == c)
      && (t == [] || t[|t| - 1] != c)
  {
    if s != [] && s[|s| - 1] == c {
      RStripIs(s[..|s| - 1], c);
    }
  }

  lemma {:induction false} RStripUnique(s: seq<byte>, t: seq<byte>, c: byte)
    requires t <= s && (forall i :: |t| <= i < |s| ==> s[i] == c) && (t == [] || t[|t| - 1] != c)
    ensures RStrip(s, c) == t
  {
    if |t| < |s| {
      RStripUnique(s[..|s| - 1], t, c);
    } else {
      assert s == t;
    }
  }

  /** There is no newline before the one a line ends at. */
  lemma {:induction false} NoNewlineInside(file: seq<byte>, off: nat)
    requires off <= |file|
    ensures forall i :: off <= i < |file| && file[i] == NL ==> LineLen(file, off) > 0 && i >= off + LineLen(file, off) - 1
  {
    forall i | off <= i < |file| && file[i] == NL ensures LineLen(file, off) > 0 && i >= off + LineLen(file, off) - 1 {
      LineLenFirst(file, off, i);
    }
  }

  lemma TextIs(raw: seq<byte>)
    requires raw != [] && raw[|raw| - 1] == NL && forall i :: 0 <= i < |raw| - 1 ==> raw[i] != NL
    ensures
      var t := TextOf(raw);
      && |t| < |raw| && t == raw[..|t|] && (forall i :: |t| <= i < |raw| - 1 ==> raw[i] == CR)
      && NL !in t && (t == [] || t[|t| - 1] != CR)
  {
    hide RStrip;
    var body := raw[..|raw| - 1];
    RStripUnique(raw, body, NL);
    RStripIs(body, CR);
  }

  lemma TextUnique(raw: seq<byte>, t: seq<byte>)
    requires |t| < |raw| && raw[|raw| - 1] == NL && t == raw[..|t|]
    requires (forall i :: |t| <= i < |raw| - 1 ==> raw[i] == CR)
    requires NL !in t && (t == [] || t[|t| - 1] != CR)
    ensures TextOf(raw) == t
  {
    hide RStrip;
    var body := raw[..|raw| - 1];
    if body != [] {
      assert body[|body| - 1] != NL by {
        if |t| == |body| { assert body == t; }
      }
    }
    RStripUnique(raw, body, NL);
    RStripUnique(body, t, CR);
  }

  /** The complete line at an offset, if there is one, with its text. */
  lemma LineHere(file: seq<byte>, from: nat, at: nat, text: seq<byte>, end: nat)
    requires from <= at <= |file| && (at == from || file[at - 1] == NL)
    ensures LineIn(file, from, at, text, end)
       <==> LineLen(file, at) > 0 && end == at + LineLen(file, at) && text == TextOf(file[at..end])
  {
    hide LineLen, TextOf;
    var k := LineLen(file, at);
    NoNewlineInside(file, at);
    if LineIn(file, from, at, text, end) {
      FirstNewline(file, from, at, text, end);
      TextUnique(file[at..end], text);
    }
    if k > 0 && end == at + k && text == TextOf(file[at..end]) {
      var raw := file[at..end];
      assert raw[|raw| - 1] == file[end - 1] == NL;
      forall i | 0 <= i < |raw| - 1 ensures raw[i] != NL { assert raw[i] == file[at + i]; }
      TextIs(raw);
      assert file[at..at + |text|] == raw[..|text|];
      forall i | at + |text| <= i < end - 1 ensures file[i] == CR { assert raw[i - at] == file[i]; }
    }
  }

  lemma FirstNewline(file: seq<byte>, from: nat, at: nat, text: seq<byte>, end: nat)
    requires LineIn(file, from, at, text, end)
    ensures LineLen(file, at) == end - at
  {
    hide LineLen;
    LineLenFirst(file, at, end - 1);
    forall i | at <= i < end - 1 ensures file[i] != NL {
      if i < at + |text| { assert file[i] == file[at..at + |text|][i - at] && text[i - at] in text; }
    }
  }

  /** Every newline ends a line, blank or not. */
  lemma {:induction false} EndsALine(file: seq<byte>, from: nat, a: nat, i: nat) returns (at: nat, text: seq<byte>)
    requires from <= a <= i < |file| && (a == from || file[a - 1] == 10) && file[i] == 10
    ensures LineIn(file, from, at, text, i + 1)
    decreases i - a
  {
    hide LineLen, LineIn, TextOf;
    LineLenFirst(file, a, i);
    var k := LineLen(file, a);
    if a + k == i + 1 {
      at, text := a, TextOf(file[a..a + k]);
      LineHere(file, from, a, text, a + k);
    } else {
      at, text := EndsALine(file, from, a + k, i);
    }
  }

  /** The lines between two offsets are exactly the complete ones that are not blank. */
  lemma {:induction false} NonBlankIs(file: seq<byte>, from: nat, a: nat, b: nat, line: Line)
    requires from <= a <= b <= |file| && (a == from || file[a - 1] == NL)
    ensures line in NonBlank(file, a, b)
       <==> line.at >= a && line.text != [] && LineBy(file, from, line.at, line.text, b)
    decreases b - a
  {
    hide LineLen, TextOf, LineIn;
    var k := LineLen(file, a);
    NoNewlineInside(file, a);
    forall end: nat | LineIn(file, from, line.at, line.text, end) && line.at >= a
      ensures line.at == a || line.at >= a + k
    {
      Elsewhere(file, from, a, line.at, line.text, end);
    }
    if k == 0 || a + k > b {
      forall end: nat | LineIn(file, from, line.at, line.text, end) && line.at >= a ensures end > b {
        if line.at == a { LineHere(file, from, a, line.text, end); }
        Elsewhere(file, from, a, line.at, line.text, end);
      }
    } else {
      NonBlankIs(file, from, a + k, b, line);
      HeadIs(file, from, a, b, line);
    }
  }

  /** The case of the line right here. */
  lemma HeadIs(file: seq<byte>, from: nat, a: nat, b: nat, line: Line)
    requires from <= a <= b <= |file| && (a == from || file[a - 1] == NL)
    requires LineLen(file, a) > 0 && a + LineLen(file, a) <= b
    ensures line in LineAt(file, a)
       <==> line.at == a && line.text != [] && LineBy(file, from, line.at, line.text, b)
  {
    hide LineLen, TextOf, LineIn;
    var k := LineLen(file, a);
    LineHere(file, from, a, line.text, a + k);
    forall end: nat | LineIn(file, from, a, line.text, end) ensures end == a + k { LineHere(file, from, a, line.text, end); }
    assert line in LineAt(file, a) <==> line.at == a && line.text != [] && line.text == TextOf(file[a..a + k]);
  }

  /** A line that begins later begins after the newline of the one at hand. */
  lemma Elsewhere(file: seq<byte>, from: nat, a: nat, at: nat, text: seq<byte>, end: nat)
    requires a <= |file| && LineIn(file, from, at, text, end) && at >= a
    ensures LineLen(file, a) > 0 && end >= a + LineLen(file, a) && (at == a || at >= a + LineLen(file, a) || at == from)
  {
    hide LineLen;
    NoNewlineInside(file, a);
  }

  /** `texts` are the texts of the non-blank complete lines from `a` up to `b`, each once
      and in order, and `ats` the offsets they begin at. */
  ghost predicate AreLines(file: seq<byte>, a: nat, b: nat, texts: seq<seq<byte>>, ats: seq<nat>) {
    && |ats| == |texts| && (forall i, j :: 0 <= i < j < |ats| ==> ats[i] < ats[j])
    && (forall i :: 0 <= i < |texts| ==> texts[i] != [] && LineBy(file, a, ats[i], texts[i], b))
    && (forall at: nat, text :: LineBy(file, a, at, text, b) && text != [] ==> at in ats)
  }

  function Starts(lines: seq<Line>): seq<nat> {
    seq(|lines|, i requires 0 <= i < |lines| => lines[i].at)
  }

  lemma {:induction false} TextsAt(lines: seq<Line>)
    ensures |Texts(lines)| == |lines| && forall i :: 0 <= i < |lines| ==> Texts(lines)[i] == lines[i].text
  {
    if lines != [] { TextsAt(lines[..|lines| - 1]); }
  }

  lemma NonBlankAreLines(file: seq<byte>, a: nat, b: nat)
    requires a <= b <= |file|
    ensures AreLines(file, a, b, Texts(NonBlank(file, a, b)), Starts(NonBlank(file, a, b)))
  {
    hide NonBlank, LineBy, Texts;
    var lines := NonBlank(file, a, b);
    var texts, ats := Texts(lines), Starts(lines);
    TextsAt(lines);
    NonBlankOrdered(file, a, b);
    forall i | 0 <= i < |texts| ensures texts[i] != [] && LineBy(file, a, ats[i], texts[i], b) {
      var line := lines[i];
      assert line in lines && texts[i] == line.text && ats[i] == line.at;
      NonBlankIs(file, a, a, b, line);
    }
    forall at: nat, text | LineBy(file, a, at, text, b) && text != [] ensures at in ats {
      BeginsIn(file, a, at, text, b);
      NonBlankIs(file, a, a, b, Line(at, text));
      assert Line(at, text) in lines;
      var i :| 0 <= i < |lines| && lines[i] == Line(at, text);
      assert ats[i] == at;
    }
  }

  lemma BeginsIn(file: seq<byte>, a: nat, at: nat, text: seq<byte>, b: nat)
    requires LineBy(file, a, at, text, b)
    ensures at >= a
  {
  }

  // ---------------------------------------------------------------------
  // read_new_lines
  // ---------------------------------------------------------------------

  datatype Chunk = Chunk(lines: seq<Line>, end: nat)

  /** The complete lines from `off`, up to `max` non-blank ones, and the offset after
      the last line consumed. */
  function ReadFrom(file: seq<byte>, off: nat, max: nat): (c: Chunk)
    requires off <= |file|
    ensures off <= c.end <= |file|
    decreases |file| - off
  {
    var k := LineLen(file, off);
    if k == 0 then Chunk([], off)
    else
      var here := LineAt(file, off);
      if |here| >= max then Chunk(here, off + k)
      else
        var rest := ReadFrom(file, off + k, max - |here|);
        Chunk(here + rest.lines, rest.end)
  }

  /** What was read is what lies between the two offsets; fewer than `max` lines
      means that no complete line is left. */
  lemma {:induction false} ReadFromIs(file: seq<byte>, off: nat, max: nat)
    requires off <= |file| && max > 0
    ensures
      var c := ReadFrom(file, off, max);
      && c.lines == NonBlank(file, off, c.end) && |c.lines| <= max
      && (|c.lines| < max ==> LineLen(file, c.end) == 0)
      && (c.end > off || Boundary(file, off) ==> Boundary(file, c.end))
      && (c.lines != [] ==> c.end > off)
    decreases |file| - off
  {
    hide LineLen, LineAt;
    var k := LineLen(file, off);
    if k > 0 {
      var here := LineAt(file, off);
      if |here| < max {
        ReadFromIs(file, off + k, max - |here|);
      } else {
        assert NonBlank(file, off + k, off + k) == [];
      }
    }
  }

  function Texts(lines: seq<Line>): seq<seq<byte>> {
    if lines == [] then [] else Texts(lines[..|lines| - 1]) + [lines[|lines| - 1].text]
  }

  /** One turn of the reader's loop. */
  lemma {:induction false} ReadFromStep(file: seq<byte>, off: nat, max: nat, seen: seq<Line>)
    requires off <= |file| && |seen| < max && LineLen(file, off) > 0
    ensures
      var next, now := off + LineLen(file, off), seen + LineAt(file, off);
      var c := ReadFrom(file, off, max - |seen|);
      if |now| >= max then seen + c.lines == now && c.end == next
      else seen + c.lines == now + ReadFrom(file, next, max - |now|).lines
           && c.end == ReadFrom(file, next, max - |now|).end
  {
    hide LineLen, LineAt;
  }

  lemma TextsSnoc(lines: seq<Line>, line: Line)
    ensures Texts(lines + [line]) == Texts(lines) + [line.text]
  {
    assert (lines + [line])[..|lines|] == lines;
  }

  ghost predicate ReadsLines(file: seq<byte>, from: nat, max: nat, texts: seq<seq<byte>>, ats: seq<nat>, offset: nat) {
    && from <= offset <= |file| && AreLines(file, from, offset, texts, ats) && |texts| <= max
    && (offset == from || file[offset - 1] == 10)
    && (|texts| < max ==> forall i :: offset <= i < |file| ==> file[i] != 10)
    && (|texts| == max > 0 ==> LineIn(file, from, ats[|ats| - 1], texts[|texts| - 1], offset))
  }

  /** A start beyond the end of the file (it was truncated) reads from the top. */
  method ReadNewLines(file: seq<byte>, start: nat, maxLines: nat) returns (texts: seq<seq<byte>>, offset: nat, ghost ats: seq<nat>)
    requires maxLines > 0
    ensures
      var c := ReadFrom(file, if start > |file| then 0 else start, maxLines);
      texts == Texts(c.lines) && offset == c.end && ats == Starts(c.lines)
    // The same byte by byte: the lines between the two offsets; none is left beyond when
    // there are fewer than asked for, and else the last one ends where the reading does.
    ensures ReadsLines(file, if start > |file| then 0 else start, maxLines, texts, ats, offset)
  {
    hide ReadFrom, TextOf, Texts, LineLen, ReadsLines;
    var from := if start > |file| then 0 else start;
    texts, offset := [], from;
    ghost var seen: seq<Line> := [];
    ghost var all := ReadFrom(file, from, maxLines);
    ats := Starts(all.lines);
    ReadBytes(file, from, maxLines);
    assert [] + all.lines == all.lines && Texts([]) == [] by { NoTexts(); }
    while offset < |file|
      invariant from <= offset <= |file| && |seen| == |texts| < maxLines
      invariant texts == Texts(seen)
      invariant seen + ReadFrom(file, offset, maxLines - |seen|).lines == all.lines
      invariant ReadFrom(file, offset, maxLines - |seen|).end == all.end
    {
      var k := LineLen(file, offset);
      if k == 0 {
        break;
      }
      ReadFromStep(file, offset, maxLines, seen);
      var text := TextOf(file[offset..offset + k]);
      if text != [] {
        texts := texts + [text];
        TextsSnoc(seen, Line(offset, text));
        seen := seen + [Line(offset, text)];
      } else {
        assert seen + [] == seen;
      }
      offset := offset + k;
      if |texts| >= maxLines {
        return;
      }
    }
    ReadNothing(file, offset, maxLines - |seen|);
    assert seen + [] == seen;
  }

  /** What is read, byte by byte. */
  lemma ReadBytes(file: seq<byte>, from: nat, max: nat)
    requires from <= |file| && max > 0
    ensures
      var c := ReadFrom(file, from, max);
      ReadsLines(file, from, max, Texts(c.lines), Starts(c.lines), c.end)
  {
    hide ReadFrom, Texts, LineLen, AreLines, LineIn, NonBlank;
    var c := ReadFrom(file, from, max);
    ReadFromIs(file, from, max);
    ReadEnds(file, from, from, max);
    TextsAt(c.lines);
    NonBlankAreLines(file, from, c.end);
    NoNewlineInside(file, c.end);
  }

  lemma {:induction false} ReadEnds(file: seq<byte>, from: nat, off: nat, max: nat)
    requires from <= off <= |file| && max > 0 && (off == from || file[off - 1] == NL)
    ensures
      var c := ReadFrom(file, off, max);
      && (c.end == from || file[c.end - 1] == NL)
      && (|c.lines| == max ==> LineIn(file, from, c.lines[|c.lines| - 1].at, c.lines[|c.lines| - 1].text, c.end))
    decreases |file| - off
  {
    hide LineLen, LineAt, LineIn;
    var k := LineLen(file, off);
    if k > 0 {
      var here := LineAt(file, off);
      LineAtIs(file, from, off);
      if |here| < max { ReadEnds(file, from, off + k, max - |here|); }
    }
  }

  lemma LineAtIs(file: seq<byte>, from: nat, off: nat)
    requires from <= off <= |file| && (off == from || file[off - 1] == NL) && LineLen(file, off) > 0
    ensures
      var here, end := LineAt(file, off), off + LineLen(file, off);
      file[end - 1] == NL && forall i :: 0 <= i < |here| ==> LineIn(file, from, here[i].at, here[i].text, end)
  {
    hide LineLen, LineIn, TextOf;
    LineHere(file, from, off, TextOf(file[off..off + LineLen(file, off)]), off + LineLen(file, off));
  }

  lemma NoTexts()
    ensures Texts([]) == []
  {
  }

  lemma ReadNothing(file: seq<byte>, off: nat, max: nat)
    requires off <= |file| && LineLen(file, off) == 0
    ensures ReadFrom(file, off, max) == Chunk([], off)
  {
  }

  // ---------------------------------------------------------------------
  // Runs
  // ---------------------------------------------------------------------

  /** Where one `run_pass` stands on this file. `Holding` has lines to ship that end
      at `end`; `Sent` has shipped them; `Noted` has set the checkpoint in memory. */
  datatype Pass =
    | Idle
    | Looking(offset: nat)
    | Holding(lines: seq<Line>, end: nat)
    | Sent(count: nat, end: nat)
    | Noted(count: nat, end: nat)

  /** The checkpoint of one file in the collector's memory and in its state file. */
  datatype State = State(file: seq<byte>, mem: nat, disk: nat, pass: Pass, received: seq<Line>)

  datatype Action =
    | Append(bytes: seq<byte>)
    | Begin
    | Read
    | ShipOk
    | ShipLost           // not received, an exception
    | ShipTimedOut       // received, yet an exception
    | SetCheckpoint
    | SaveOk
    | SaveFailed
    | SaveElsewhere      // the state file is written for another path
    | Restart(lost: bool) // the process dies and starts again; `lost`: its state file cannot be read

  predicate Enabled(s: State, a: Action) {
    match a
    case Append(_) => true
    case Begin => s.pass.Idle?
    case Read => s.pass.Looking? && s.pass.offset <= |s.file|
    case ShipOk => s.pass.Holding?
    case ShipLost => s.pass.Holding?
    case ShipTimedOut => s.pass.Holding?
    case SetCheckpoint => s.pass.Sent?
    case SaveOk => s.pass.Noted?
    case SaveFailed => s.pass.Noted?
    case SaveElsewhere => s.pass.Idle?
    case Restart(_) => true
  }

  function Step(batch: nat, s: State, a: Action): State
    requires Enabled(s, a)
  {
    match a
    case Append(bytes) => s.(file := s.file + bytes)
    case Begin => s.(pass := Looking(s.mem))
    case Read =>
      var c := ReadFrom(s.file, s.pass.offset, batch);
      s.(pass := if c.lines == [] then Idle else Holding(c.lines, c.end))
    case ShipOk => s.(pass := Sent(|s.pass.lines|, s.pass.end), received := s.received + s.pass.lines)
    case ShipLost => s.(pass := Idle)
    case ShipTimedOut => s.(pass := Idle, received := s.received + s.pass.lines)
    case SetCheckpoint => s.(pass := Noted(s.pass.count, s.pass.end), mem := s.pass.end)
    case SaveOk => s.(pass := if s.pass.count < batch then Idle else Looking(s.pass.end), disk := s.mem)
    case SaveFailed => s.(pass := Idle)
    case SaveElsewhere => s.(disk := s.mem)
    case Restart(lost) => s.(pass := Idle, mem := if lost then 0 else s.disk)
  }

  predicate Runs(batch: nat, s: State, run: seq<Action>)
    decreases |run|
  {
    run == [] || (Enabled(s, run[0]) && Runs(batch, Step(batch, s, run[0]), run[1..]))
  }

  function After(batch: nat, s: State, run: seq<Action>): State
    requires Runs(batch, s, run)
    decreases |run|
  {
    if run == [] then s else After(batch, Step(batch, s, run[0]), run[1..])
  }

  function Initial(): State { State([], 0, 0, Idle, []) }

  // ---------------------------------------------------------------------
  // At least once, in order
  // ---------------------------------------------------------------------

  /** A line boundary with no more than the first n lines before it. */
  ghost predicate Reached(file: seq<byte>, n: nat, o: nat) {
    Boundary(file, o) && |NonBlank(file, 0, o)| <= n
  }

  /** The lines are those between the boundary `from` and the boundary `to`. */
  ghost predicate Between(file: seq<byte>, n: nat, from: nat, to: nat, lines: seq<Line>) {
    Reached(file, n, from) && from <= to && Boundary(file, to) && lines == NonBlank(file, from, to)
  }

  ghost predicate PassOk(file: seq<byte>, n: nat, p: Pass) {
    match p
    case Idle => true
    case Looking(offset) => Reached(file, n, offset)
    case Holding(lines, end) => exists from :: Between(file, n, from, end, lines)
    case Sent(_, end) => Reached(file, n, end)
    case Noted(_, end) => Reached(file, n, end)
  }

  /** The receiver keeps the first n lines of the file; both checkpoints and the pass
      stand within those n. */
  ghost predicate Inv(s: State) {
    var n := |Dedup(s.received)|;
    && Dedup(s.received) <= AllLines(s.file)
    && Reached(s.file, n, s.mem) && Reached(s.file, n, s.disk)
    && PassOk(s.file, n, s.pass)
  }

  lemma LinesDistinct(file: seq<byte>)
    ensures forall i, j :: 0 <= i < j < |AllLines(file)| ==> AllLines(file)[i] != AllLines(file)[j]
  {
    NonBlankOrdered(file, 0, |file|);
  }

  /** The lines between two boundaries are a stretch of all the lines. */
  lemma {:induction false} BetweenIsStretch(file: seq<byte>, n: nat, from: nat, to: nat, lines: seq<Line>)
    requires Between(file, n, from, to, lines)
    ensures
      var i, j := |NonBlank(file, 0, from)|, |NonBlank(file, 0, to)|;
      i <= n && i <= j <= |AllLines(file)| && lines == AllLines(file)[i..j]
  {
    hide NonBlank;
    NonBlankSplit(file, 0, from, to);
    NonBlankSplit(file, 0, to, |file|);
  }

  lemma ReachedAppend(file: seq<byte>, more: seq<byte>, n: nat, o: nat)
    requires Reached(file, n, o)
    ensures Reached(file + more, n, o)
  {
    hide NonBlank;
    NonBlankAppend(file, more, 0, o);
  }

  lemma AppendKeepsPass(file: seq<byte>, more: seq<byte>, n: nat, p: Pass)
    requires PassOk(file, n, p)
    ensures PassOk(file + more, n, p)
  {
    hide NonBlank, Reached;
    match p
    case Idle =>
    case Looking(offset) => ReachedAppend(file, more, n, offset);
    case Sent(_, end) => ReachedAppend(file, more, n, end);
    case Noted(_, end) => ReachedAppend(file, more, n, end);
    case Holding(lines, end) =>
      var from :| Between(file, n, from, end, lines);
      ReachedAppend(file, more, n, from);
      NonBlankAppend(file, more, from, end);
      assert Between(file + more, n, from, end, lines);
  }

  lemma AppendKeepsInv(s: State, bytes: seq<byte>)
    requires Inv(s)
    ensures Inv(s.(file := s.file + bytes))
  {
    hide AllLines, Reached, PassOk, Dedup;
    var n := |Dedup(s.received)|;
    AllLinesGrow(s.file, bytes);
    ReachedAppend(s.file, bytes, n, s.mem);
    ReachedAppend(s.file, bytes, n, s.disk);
    AppendKeepsPass(s.file, bytes, n, s.pass);
  }

  lemma ReadKeepsInv(batch: nat, s: State)
    requires batch > 0 && Inv(s) && Enabled(s, Read)
    ensures Inv(Step(batch, s, Read))
  {
    hide AllLines, Dedup, ReadFrom, NonBlank;
    var c := ReadFrom(s.file, s.pass.offset, batch);
    ReadFromIs(s.file, s.pass.offset, batch);
    assert Between(s.file, |Dedup(s.received)|, s.pass.offset, c.end, c.lines);
  }

  /** The receiver gets the lines at hand: all lines before them had been received,
      so the first receipts stay in order, and reach up to the new offset. */
  lemma ReceiveKeepsInv(s: State)
    requires Inv(s) && s.pass.Holding?
    ensures
      var t := s.(pass := Idle, received := s.received + s.pass.lines);
      Inv(t) && Reached(s.file, |Dedup(t.received)|, s.pass.end)
  {
    hide AllLines, Dedup, NonBlank;
    var n := |Dedup(s.received)|;
    var from :| Between(s.file, n, from, s.pass.end, s.pass.lines);
    BetweenIsStretch(s.file, n, from, s.pass.end, s.pass.lines);
    LinesDistinct(s.file);
    ReceiveStretch(AllLines(s.file), s.received, |NonBlank(s.file, 0, from)|, |NonBlank(s.file, 0, s.pass.end)|);
  }

  lemma ZeroReached(file: seq<byte>, n: nat)
    ensures Reached(file, n, 0)
  {
    assert NonBlank(file, 0, 0) == [];
  }

  lemma InvStep(batch: nat, s: State, a: Action)
    requires batch > 0 && Inv(s) && Enabled(s, a)
    ensures Inv(Step(batch, s, a))
  {
    hide AllLines, Dedup, Reached, NonBlank, ReadFrom;
    match a
    case Append(bytes) => AppendKeepsInv(s, bytes);
    case Read => ReadKeepsInv(batch, s);
    case ShipOk => ReceiveKeepsInv(s);
    case ShipTimedOut => ReceiveKeepsInv(s);
    case Restart(lost) => ZeroReached(s.file, |Dedup(s.received)|);
    case _ =>
  }

  lemma {:induction false} InvRun(batch: nat, s: State, run: seq<Action>)
    requires batch > 0 && Inv(s) && Runs(batch, s, run)
    ensures Inv(After(batch, s, run))
    decreases |run|
  {
    if run != [] {
      hide Inv;
      InvStep(batch, s, run[0]);
      InvRun(batch, Step(batch, s, run[0]), run[1..]);
    }
  }

  lemma InitialInv()
    ensures Inv(Initial())
  {
    ZeroReached([], 0);
  }

  lemma {:induction false} KeptLines(file: seq<byte>, received: seq<Line>, o: nat)
    requires Dedup(received) <= AllLines(file) && Reached(file, |Dedup(received)|, o)
    ensures forall i :: 0 <= i < |NonBlank(file, 0, o)| ==> NonBlank(file, 0, o)[i] in received
  {
    hide NonBlank;
    NonBlankGrows(file, 0, o, |file|);
    forall i | 0 <= i < |NonBlank(file, 0, o)| ensures NonBlank(file, 0, o)[i] in received {
      InPrefix(Dedup(received), AllLines(file), i);
    }
  }

  /** Over every run: both checkpoints stand at the start of the file or after a
      newline, every non-blank line before either has been received, and the first
      receipts are the file's lines in file order. */
  lemma AtLeastOnceInOrder(batch: nat, run: seq<Action>)
    requires batch > 0 && Runs(batch, Initial(), run)
    ensures
      var t := After(batch, Initial(), run);
      && Boundary(t.file, t.mem) && Boundary(t.file, t.disk)
      && Dedup(t.received) <= AllLines(t.file)
      && (forall i :: 0 <= i < |NonBlank(t.file, 0, t.mem)| ==> NonBlank(t.file, 0, t.mem)[i] in t.received)
      && (forall i :: 0 <= i < |NonBlank(t.file, 0, t.disk)| ==> NonBlank(t.file, 0, t.disk)[i] in t.received)
  {
    hide NonBlank, Dedup, PassOk, AllLines;
    InitialInv();
    InvRun(batch, Initial(), run);
    var t := After(batch, Initial(), run);
    KeptLines(t.file, t.received, t.mem);
    KeptLines(t.file, t.received, t.disk);
  }

  // ---------------------------------------------------------------------
  // Exactly once
  // ---------------------------------------------------------------------

  /** How far the lines were shipped. */
  function Frontier(s: State): nat {
    if s.pass.Sent? then s.pass.end else s.mem
  }

  ghost predicate Once(s: State) {
    && Boundary(s.file, Frontier(s)) && s.received == NonBlank(s.file, 0, Frontier(s))
    && match s.pass
       case Idle => true
       case Sent(_, _) => true
       case Looking(offset) => offset == s.mem
       case Holding(lines, end) => s.mem <= end && Boundary(s.file, end) && lines == NonBlank(s.file, s.mem, end) && lines != []
       case Noted(_, end) => end == s.mem
  }

  lemma OnceAppend(s: State, bytes: seq<byte>)
    requires Once(s)
    ensures Once(s.(file := s.file + bytes))
  {
    hide NonBlank;
    NonBlankAppend(s.file, bytes, 0, Frontier(s));
    if s.pass.Holding? {
      NonBlankAppend(s.file, bytes, s.mem, s.pass.end);
    }
  }

  lemma OnceStep(batch: nat, s: State, a: Action)
    requires batch > 0 && Once(s) && Enabled(s, a) && !a.ShipTimedOut? && !a.Restart?
    ensures Once(Step(batch, s, a))
  {
    hide NonBlank, ReadFrom;
    match a
    case Append(bytes) => OnceAppend(s, bytes);
    case Read => ReadFromIs(s.file, s.pass.offset, batch);
    case ShipOk => NonBlankSplit(s.file, 0, s.mem, s.pass.end);
    case _ =>
  }

  /** The offset a restart goes on from. */
  function Resumed(s: State, lost: bool): nat {
    if lost then 0 else s.disk
  }

  /** No line is shipped again: a restart resumes no earlier than what was shipped, or
      only blank lines lie between; and no ship that arrived is taken for a failure.
      Ships that fail without being received, and failed saves, do no harm. */
  ghost predicate Harmless(s: State, a: Action) {
    match a
    case Restart(lost) =>
      var o := Resumed(s, lost);
      o < Frontier(s) <= |s.file| ==> NonBlank(s.file, o, Frontier(s)) == []
    case ShipTimedOut => false
    case _ => true
  }

  ghost predicate CleanRun(batch: nat, s: State, run: seq<Action>)
    requires Runs(batch, s, run)
    decreases |run|
  {
    run == [] || (Harmless(s, run[0]) && CleanRun(batch, Step(batch, s, run[0]), run[1..]))
  }

  lemma OnceIsDistinct(s: State)
    requires Once(s)
    ensures Distinct(s.received) && Dedup(s.received) == s.received
  {
    NonBlankOrdered(s.file, 0, Frontier(s));
    DedupFixed(s.received);
  }

  /** A restart that loses nothing: as many lines before the resumed offset as were
      shipped. */
  lemma HarmlessRestart(batch: nat, s: State, lost: bool)
    requires Once(s) && Inv(s) && Harmless(s, Restart(lost))
    ensures Once(Step(batch, s, Restart(lost)))
  {
    hide NonBlank, AllLines, Dedup;
    var o, f := Resumed(s, lost), Frontier(s);
    OnceIsDistinct(s);
    ZeroReached(s.file, |Dedup(s.received)|);
    if o < f {
      NonBlankSplit(s.file, 0, o, f);
      assert NonBlank(s.file, 0, o) + [] == NonBlank(s.file, 0, o);
    } else {
      NonBlankGrows(s.file, 0, f, o);
    }
  }

  lemma CleanStep(batch: nat, s: State, a: Action)
    requires batch > 0 && Once(s) && Inv(s) && Enabled(s, a) && Harmless(s, a)
    ensures Once(Step(batch, s, a)) && Inv(Step(batch, s, a))
  {
    hide Once, Inv;
    InvStep(batch, s, a);
    if a.Restart? {
      HarmlessRestart(batch, s, a.lost);
    } else {
      OnceStep(batch, s, a);
    }
  }

  lemma {:induction false} OnceRun(batch: nat, s: State, run: seq<Action>)
    requires batch > 0 && Once(s) && Inv(s) && Runs(batch, s, run) && CleanRun(batch, s, run)
    ensures Once(After(batch, s, run)) && Inv(After(batch, s, run))
    decreases |run|
  {
    if run != [] {
      hide Once, Inv, Harmless;
      CleanStep(batch, s, run[0]);
      OnceRun(batch, Step(batch, s, run[0]), run[1..]);
    }
  }

  lemma InitialOnce()
    ensures Once(Initial()) && Inv(Initial())
  {
    InitialInv();
    assert NonBlank([], 0, 0) == [];
  }

  /** Exactly once: over every run without harmful faults, restarts included, the lines
      received are between passes exactly the non-blank lines before the checkpoint, in
      order, and never one of them twice. */
  lemma ExactlyOnce(batch: nat, run: seq<Action>)
    requires batch > 0 && Runs(batch, Initial(), run) && CleanRun(batch, Initial(), run)
    ensures
      var t := After(batch, Initial(), run);
      Distinct(t.received) && (t.pass.Idle? ==> Boundary(t.file, t.mem) && t.received == NonBlank(t.file, 0, t.mem))
  {
    InitialOnce();
    OnceRun(batch, Initial(), run);
    OnceIsDistinct(After(batch, Initial(), run));
  }

  /** What is read from an offset begins with the first non-blank line after it. */
  lemma {:induction false} ReadBegins(file: seq<byte>, off: nat, to: nat, max: nat)
    requires off <= to <= |file| && max > 0 && NonBlank(file, off, to) != []
    ensures
      var c := ReadFrom(file, off, max);
      c.lines != [] && c.lines[0] == NonBlank(file, off, to)[0]
    decreases |file| - off
  {
    hide LineLen, LineAt;
    if LineAt(file, off) == [] {
      ReadBegins(file, off + LineLen(file, off), to, max);
    }
  }

  lemma NotDistinct(a: seq<Line>, b: seq<Line>)
    requires b != [] && b[0] in a
    ensures !Distinct(a + b)
  {
    var i :| 0 <= i < |a| && a[i] == b[0];
    assert (a + b)[i] == (a + b)[|a|];
  }

  /** The pass after a fault, up to its first ship. */
  lemma NextShip(batch: nat, t: State)
    requires batch > 0 && t.pass.Idle? && t.mem <= |t.file| && ReadFrom(t.file, t.mem, batch).lines != []
    ensures
      var again := [Begin, Read, ShipOk];
      && Runs(batch, t, again) && CleanRun(batch, t, again)
      && After(batch, t, again).received == t.received + ReadFrom(t.file, t.mem, batch).lines
  {
    hide ReadFrom;
    var c := ReadFrom(t.file, t.mem, batch);
    var t1, t2 := t.(pass := Looking(t.mem)), t.(pass := Holding(c.lines, c.end));
    var t3 := t.(pass := Sent(|c.lines|, c.end), received := t.received + c.lines);
    Chain(batch, [t, t1, t2, t3], [Begin, Read, ShipOk]);
    assert [Begin, Read, ShipOk][1..] == [Read, ShipOk] && [Read, ShipOk][1..] == [ShipOk] && [ShipOk][1..] == [];
    assert CleanRun(batch, t3, []);
    assert CleanRun(batch, t2, [ShipOk]);
    assert CleanRun(batch, t1, [Read, ShipOk]);
  }

  /** After a harmful fault the very next ship sends a line again. */
  lemma {:induction false} HarmRepeats(batch: nat, s: State, a: Action)
    requires batch > 0 && Once(s) && Inv(s) && Enabled(s, a) && !Harmless(s, a)
    ensures
      var t, again := Step(batch, s, a), [Begin, Read, ShipOk];
      Runs(batch, t, again) && CleanRun(batch, t, again) && !Distinct(After(batch, t, again).received)
  {
    hide NonBlank, AllLines, Dedup, ReadFrom, Runs, CleanRun, After;
    var t := Step(batch, s, a);
    var to := if a.Restart? then Frontier(s) else s.pass.end;
    if a.Restart? {
      ZeroReached(s.file, |Dedup(s.received)|);
      NonBlankSplit(s.file, 0, Resumed(s, a.lost), to);
    }
    var again := NonBlank(s.file, t.mem, to);
    ReadBegins(s.file, t.mem, to, batch);
    NextShip(batch, t);
    InTail(if a.Restart? then NonBlank(s.file, 0, t.mem) else s.received, again);
    NotDistinct(t.received, ReadFrom(t.file, t.mem, batch).lines);
  }

  lemma InTail(a: seq<Line>, b: seq<Line>)
    requires b != []
    ensures b[0] in a + b
  {
    assert (a + b)[|a|] == b[0];
  }

  /** The condition is exact. After any clean run, a step is harmless if and only if no
      clean continuation ever receives a line twice: the guard of a restart is that
      the saved offset is not behind the shipped lines (but for blank ones), and a
      ship that arrived but was reported failed always repeats. */
  lemma RepeatsIff(batch: nat, run: seq<Action>, a: Action)
    requires batch > 0 && Runs(batch, Initial(), run) && CleanRun(batch, Initial(), run)
    requires Enabled(After(batch, Initial(), run), a)
    ensures
      var s := After(batch, Initial(), run);
      Harmless(s, a) <==>
        forall more :: Runs(batch, Step(batch, s, a), more) && CleanRun(batch, Step(batch, s, a), more) ==>
          Distinct(After(batch, Step(batch, s, a), more).received)
  {
    hide Once, Inv, Harmless, Runs, CleanRun, After, Distinct;
    InitialOnce();
    OnceRun(batch, Initial(), run);
    var s := After(batch, Initial(), run);
    if Harmless(s, a) {
      CleanStep(batch, s, a);
      forall more | Runs(batch, Step(batch, s, a), more) && CleanRun(batch, Step(batch, s, a), more)
        ensures Distinct(After(batch, Step(batch, s, a), more).received)
      {
        OnceRun(batch, Step(batch, s, a), more);
        OnceIsDistinct(After(batch, Step(batch, s, a), more));
      }
    } else {
      HarmRepeats(batch, s, a);
    }
  }

  const LINE := Line(0, [65])

  /** Both kinds of harmful fault do occur: either alone makes a line arrive twice. */
  lemma FaultsRepeat(fault: Action)
    requires fault == Restart(false) || fault == ShipTimedOut
    ensures
      exists run: seq<Action> ::
        Runs(1, Initial(), run) && After(1, Initial(), run).received == [LINE, LINE]
        && (forall i :: 0 <= i < |run| && (run[i].ShipTimedOut? || run[i].Restart?) ==> run[i] == fault)
  {
    hide *;
    var file: seq<byte> := [65, NL];
    var first := if fault.ShipTimedOut? then [Begin, Read, ShipTimedOut] else [Begin, Read, ShipOk, Restart(false)];
    var again := [Begin, Read, ShipOk];
    Arrives(file);
    ShippedFrom(file, []);
    assert [] + [LINE] == [LINE];
    RunsConcat(1, Initial(), [Append(file)], first);
    ShippedFrom(file, [LINE]);
    RunsConcat(1, Initial(), [Append(file)] + first, again);
    var run := [Append(file)] + first + again;
    assert [LINE] + [LINE] == [LINE, LINE];
    OnlyThisFault(file, fault, run);
  }

  lemma OnlyThisFault(file: seq<byte>, fault: Action, run: seq<Action>)
    requires fault == Restart(false) || fault == ShipTimedOut
    requires run == [Append(file)]
      + (if fault.ShipTimedOut? then [Begin, Read, ShipTimedOut] else [Begin, Read, ShipOk, Restart(false)])
      + [Begin, Read, ShipOk]
    ensures forall i :: 0 <= i < |run| && (run[i].ShipTimedOut? || run[i].Restart?) ==> run[i] == fault
  {
  }

  lemma Arrives(file: seq<byte>)
    ensures Runs(1, Initial(), [Append(file)])
    ensures After(1, Initial(), [Append(file)]) == State(file, 0, 0, Idle, [])
  {
    assert [] + file == file;
    Chain(1, [Initial(), State(file, 0, 0, Idle, [])], [Append(file)]);
  }

  lemma ShippedFrom(file: seq<byte>, received: seq<Line>)
    requires file == [65, NL]
    ensures
      var s := State(file, 0, 0, Idle, received);
      var ok, late, died := [Begin, Read, ShipOk], [Begin, Read, ShipTimedOut], [Begin, Read, ShipOk, Restart(false)];
      && Runs(1, s, ok) && After(1, s, ok) == State(file, 0, 0, Sent(1, 2), received + [LINE])
      && Runs(1, s, late) && After(1, s, late) == State(file, 0, 0, Idle, received + [LINE])
      && Runs(1, s, died) && After(1, s, died) == State(file, 0, 0, Idle, received + [LINE])
  {
    hide ReadFrom;
    OneLine(file);
    var s0 := State(file, 0, 0, Idle, received);
    var s1, s2 := s0.(pass := Looking(0)), s0.(pass := Holding([LINE], 2));
    var sent, back := State(file, 0, 0, Sent(1, 2), received + [LINE]), State(file, 0, 0, Idle, received + [LINE]);
    Chain(1, [s0, s1, s2, sent], [Begin, Read, ShipOk]);
    Chain(1, [s0, s1, s2, back], [Begin, Read, ShipTimedOut]);
    Chain(1, [s0, s1, s2, sent, back], [Begin, Read, ShipOk, Restart(false)]);
  }

  lemma OneLine(file: seq<byte>)
    requires file == [65, NL]
    ensures ReadFrom(file, 0, 1) == Chunk([Line(0, [65])], 2)
  {
    assert LineLen(file, 1) == 1;
    assert LineLen(file, 0) == 2;
    assert file[0..2] == file && file[..1] == [65];
    assert RStrip(file, NL) == RStrip([65], NL) == [65];
  }

  /** A list of states in which each follows from the one before is a run. */
  lemma {:induction false} Chain(batch: nat, states: seq<State>, run: seq<Action>)
    requires |states| == |run| + 1
    requires forall i :: 0 <= i < |run| ==> Enabled(states[i], run[i]) && states[i + 1] == Step(batch, states[i], run[i])
    ensures Runs(batch, states[0], run) && After(batch, states[0], run) == states[|run|]
    decreases |run|
  {
    if run != [] {
      hide Step, Enabled;
      Chain(batch, states[1..], run[1..]);
    }
  }

  lemma {:induction false} RunsConcat(batch: nat, s: State, a: seq<Action>, b: seq<Action>)
    requires Runs(batch, s, a) && Runs(batch, After(batch, s, a), b)
    ensures Runs(batch, s, a + b) && After(batch, s, a + b) == After(batch, After(batch, s, a), b)
    decreases |a|
  {
    hide Step, Enabled;
    if a == [] {
      assert a + b == b;
    } else {
      assert (a + b)[0] == a[0] && (a + b)[1..] == a[1..] + b;
      RunsConcat(batch, Step(batch, s, a[0]), a[1..], b);
    }
  }
}
