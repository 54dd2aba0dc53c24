/** A SQL script as a sequence of pieces, and what both splitters make of them. */
module SqlPieces {
  import opened SqlScripts
  import opened Text

  datatype Dialect = Backend | Loader

  datatype Piece =
    | Single(c: char)
    | Quoted(quote: char, body: string)
    | Unclosed(quote: char, body: string)
    | Line(body: string)
    | Block(body: string)
    | OpenBlock(body: string)
    | Semicolon

  function Split(d: Dialect, script: string): seq<string> {
    if d.Backend? then PgSplit(script) else DbSplit(script)
  }

  // ---------------------------------------------------------------------
  // Pieces
  // ---------------------------------------------------------------------

  function Raw(p: Piece): string {
    match p
    case Single(c) => [c]
    case Quoted(quote, body) => [quote] + body + [quote]
    case Unclosed(quote, body) => [quote] + body
    case Line(body) => "--" + body
    case Block(body) => "/*" + body + "*/"
    case OpenBlock(body) => "/*" + body
    case Semicolon => ";"
  }

  /** Comments and separators leave no text in a statement; everything else stays as it is. */
  function Kept(p: Piece): string {
    if p.Single? || p.Quoted? || p.Unclosed? then Raw(p) else ""
  }

  predicate IsQuote(d: Dialect, c: char) {
    c == '\'' || (d.Loader? && c == '"')
  }

  predicate EndAt(s: string, i: int) {
    0 <= i && i + 1 < |s| && s[i] == '*' && s[i + 1] == '/'
  }

  ghost predicate EndsBlock(body: string) {
    exists i :: EndAt(body, i)
  }

  /** How the piece reads, with this text after it: a quoted stretch goes to the next quote
      of its kind, a line comment to the line break, a block comment - of the loader alone
      - to the first star-slash; the unclosed ones go to the end of the script. */
  ghost predicate Reads(d: Dialect, p: Piece, rest: string) {
    match p
    case Single(c) =>
      !IsQuote(d, c) && c != ';' && (rest != "" ==> [c, rest[0]] != "--" && (d.Loader? ==> [c, rest[0]] != "/*"))
    case Quoted(quote, body) => IsQuote(d, quote) && quote !in body
    case Unclosed(quote, body) => IsQuote(d, quote) && quote !in body && rest == ""
    case Line(body) => '\n' !in body && (rest == "" || rest[0] == '\n')
    case Block(body) => d.Loader? && !EndsBlock(body)
    case OpenBlock(body) => d.Loader? && !EndsBlock(body) && rest == ""
    case Semicolon => true
  }

  function RawAll(ps: seq<Piece>): string {
    if ps == [] then "" else Raw(ps[0]) + RawAll(ps[1..])
  }

  function KeptAll(ps: seq<Piece>): string {
    if ps == [] then "" else Kept(ps[0]) + KeptAll(ps[1..])
  }

  ghost predicate ReadsAll(d: Dialect, ps: seq<Piece>) {
    forall i :: 0 <= i < |ps| ==> Reads(d, ps[i], RawAll(ps[i + 1..]))
  }

  /** The statement made of these pieces, if anything is left of it. */
  function Statement(ps: seq<Piece>): seq<string> {
    if Strip(KeptAll(ps)) == "" then [] else [Strip(KeptAll(ps))]
  }

  // ---------------------------------------------------------------------
  // Every script has pieces
  // ---------------------------------------------------------------------

  lemma {:induction false} FirstOf(c: char, s: string) returns (i: nat)
    ensures i <= |s| && c !in s[..i] && (i < |s| ==> s[i] == c)
  {
    if s == "" || s[0] == c {
      i := 0;
    } else {
      i := FirstOf(c, s[1..]);
      i := i + 1;
      assert s[..i] == [s[0]] + s[1..][..i - 1];
    }
  }

  lemma {:induction false} FirstEnd(s: string) returns (i: nat)
    ensures i <= |s| && !EndsBlock(s[..i]) && (i < |s| ==> i + 1 < |s| && s[i] == '*' && s[i + 1] == '/')
  {
    if |s| < 2 {
      i := |s|;
    } else if s[0] == '*' && s[1] == '/' {
      i := 0;
    } else {
      i := FirstEnd(s[1..]);
      var head := s[..i + 1];
      forall j ensures !EndAt(head, j) {
        assert EndAt(head, j) && j > 0 ==> EndAt(s[1..][..i], j - 1);
      }
      i := i + 1;
    }
  }

  lemma NextPiece(d: Dialect, s: string) returns (p: Piece, rest: string)
    requires s != ""
    ensures Raw(p) + rest == s && Reads(d, p, rest) && |rest| < |s|
  {
    var c, tail := s[0], s[1..];
    if IsQuote(d, c) {
      var i := FirstOf(c, tail);
      p := if i < |tail| then Quoted(c, tail[..i]) else Unclosed(c, tail);
      rest := if i < |tail| then tail[i + 1..] else "";
    } else if c == ';' {
      p, rest := Semicolon, tail;
    } else if tail != "" && [c, tail[0]] == "--" {
      var i := FirstOf('\n', tail[1..]);
      p, rest := Line(tail[1..][..i]), tail[1..][i..];
    } else if d.Loader? && tail != "" && [c, tail[0]] == "/*" {
      var i := FirstEnd(tail[1..]);
      p := if i < |tail| - 1 then Block(tail[1..][..i]) else OpenBlock(tail[1..]);
      rest := if i < |tail| - 1 then tail[1..][i + 2..] else "";
      assert i == |tail| - 1 ==> tail[1..][..i] == tail[1..];
    } else {
      p, rest := Single(c), tail;
    }
  }

  lemma {:induction false} HasPieces(d: Dialect, s: string) returns (ps: seq<Piece>)
    ensures RawAll(ps) == s && ReadsAll(d, ps)
    decreases |s|
  {
    if s == "" {
      ps := [];
    } else {
      hide Reads, Raw;
      var p, rest := NextPiece(d, s);
      var more := HasPieces(d, rest);
      ps := [p] + more;
      assert ps[1..] == more;
      forall i | 0 <= i < |ps| ensures Reads(d, ps[i], RawAll(ps[i + 1..])) {
        if i > 0 { assert ps[i + 1..] == more[i..] && ps[i] == more[i - 1]; }
      }
    }
  }

  // ---------------------------------------------------------------------
  // Scanning a piece
  // ---------------------------------------------------------------------

  function Scan(d: Dialect, s: string, out: seq<string>, buf: string): seq<string> {
    if d.Backend? then PgScan(s, out, buf, false) else DbScan(s, out, buf, Plain)
  }

  lemma {:induction false} PgBody(body: string, rest: string, out: seq<string>, buf: string)
    requires '\'' !in body
    ensures PgScan(body + rest, out, buf, true) == PgScan(rest, out, buf + body, true)
  {
    if body == "" {
      assert body + rest == rest && buf + body == buf;
    } else {
      var c := body[0];
      assert c in body && (body + rest)[0] == c && (body + rest)[1..] == body[1..] + rest;
      PgBody(body[1..], rest, out, buf + [c]);
      assert buf + [c] + body[1..] == buf + body;
    }
  }

  lemma {:induction false} DbBody(quote: char, body: string, rest: string, out: seq<string>, buf: string)
    requires quote !in body && (quote == '\'' || quote == '"')
    ensures
      var mode := if quote == '\'' then SQuote else DQuote;
      DbScan(body + rest, out, buf, mode) == DbScan(rest, out, buf + body, mode)
  {
    if body == "" {
      assert body + rest == rest && buf + body == buf;
    } else {
      var c := body[0];
      assert c in body && (body + rest)[0] == c && (body + rest)[1..] == body[1..] + rest;
      DbBody(quote, body[1..], rest, out, buf + [c]);
      assert buf + [c] + body[1..] == buf + body;
    }
  }

  lemma {:induction false} LineBody(body: string, rest: string, out: seq<string>, buf: string)
    requires '\n' !in body && (rest == "" || rest[0] == '\n')
    ensures SkipLine(body + rest) == rest
    ensures DbScan(body + rest, out, buf, LineComment) == DbScan(rest, out, buf, Plain)
  {
    if body == "" {
      assert body + rest == rest;
    } else {
      assert body[0] in body && (body + rest)[0] == body[0] && (body + rest)[1..] == body[1..] + rest;
      LineBody(body[1..], rest, out, buf);
    }
  }

  lemma {:induction false} BlockBody(body: string, rest: string, out: seq<string>, buf: string)
    requires !EndsBlock(body)
    requires rest == "" || (|rest| > 1 && rest[0] == '*' && rest[1] == '/')
    ensures DbScan(body + rest, out, buf, BlockComment) == DbScan(if rest == "" then "" else rest[2..], out, buf, Plain)
  {
    var s := body + rest;
    if body == "" {
      assert s == rest;
      if rest != "" { assert rest[..2] == "*/"; }
    } else {
      assert s[0] == body[0] && s[1..] == body[1..] + rest;
      assert !EndAt(body, 0);
      assert |s| > 1 ==> s[..2][0] == s[0] && s[..2][1] == s[1];
      assert |body| > 1 ==> s[1] == body[1];
      forall i ensures !EndAt(body[1..], i) {
        assert EndAt(body[1..], i) ==> EndAt(body, i + 1);
      }
      BlockBody(body[1..], rest, out, buf);
    }
  }

  /** A separator ends the statement; any other piece adds what is kept of it. */
  lemma ScanPiece(d: Dialect, p: Piece, rest: string, out: seq<string>, buf: string)
    requires Reads(d, p, rest)
    ensures Scan(d, Raw(p) + rest, out, buf)
         == if p.Semicolon? then Scan(d, rest, Close(out, buf), "") else Scan(d, rest, out, buf + Kept(p))
  {
    hide Strip;
    if d.Backend? {
      PgPiece(p, rest, out, buf);
    } else {
      DbPiece(p, rest, out, buf);
    }
  }

  lemma PgPiece(p: Piece, rest: string, out: seq<string>, buf: string)
    requires Reads(Backend, p, rest)
    ensures PgScan(Raw(p) + rest, out, buf, false)
         == if p.Semicolon? then PgScan(rest, Close(out, buf), "", false) else PgScan(rest, out, buf + Kept(p), false)
  {
    hide Strip;
    var s := Raw(p) + rest;
    if p.Quoted? || p.Unclosed? {
      PgQuoted(p, rest, out, buf);
    } else if p.Line? {
      assert s[1..][1..] == p.body + rest && s[1] == '-';
      LineBody(p.body, rest, out, buf);
      assert SkipLine(s) == SkipLine(s[1..]) == rest;
      assert buf + "" == buf;
    } else {
      assert s[1..] == rest;
    }
  }

  lemma PgTurns(s: string, out: seq<string>, buf: string, inStr: bool)
    requires s != "" && s[0] == '\''
    ensures PgScan(s, out, buf, inStr) == PgScan(s[1..], out, buf + ['\''], !inStr)
  {
  }

  lemma PgAtEnd(out: seq<string>, buf: string)
    ensures PgScan("", out, buf, true) == PgScan("", out, buf, false)
  {
  }

  lemma PgQuoted(p: Piece, rest: string, out: seq<string>, buf: string)
    requires (p.Quoted? || p.Unclosed?) && Reads(Backend, p, rest)
    ensures PgScan(Raw(p) + rest, out, buf, false) == PgScan(rest, out, buf + Raw(p), false)
  {
    hide PgScan;
    var s, end := Raw(p) + rest, if p.Quoted? then ['\''] + rest else "";
    assert s[1..] == p.body + end;
    PgTurns(s, out, buf, false);
    PgBody(p.body, end, out, buf + ['\'']);
    if p.Quoted? {
      PgTurns(end, out, buf + ['\''] + p.body, true);
      assert end[1..] == rest && buf + ['\''] + p.body + ['\''] == buf + Raw(p);
    } else {
      PgAtEnd(out, buf + ['\''] + p.body);
      assert buf + ['\''] + p.body == buf + Raw(p);
    }
  }

  lemma DbPiece(p: Piece, rest: string, out: seq<string>, buf: string)
    requires Reads(Loader, p, rest)
    ensures DbScan(Raw(p) + rest, out, buf, Plain)
         == if p.Semicolon? then DbScan(rest, Close(out, buf), "", Plain) else DbScan(rest, out, buf + Kept(p), Plain)
  {
    hide Strip;
    var s := Raw(p) + rest;
    if p.Quoted? || p.Unclosed? {
      DbQuoted(p, rest, out, buf);
    } else if p.Line? || p.Block? || p.OpenBlock? {
      DbComment(p, rest, out, buf);
      assert buf + "" == buf;
    } else {
      assert |s| > 1 ==> s[..2] == [s[0], s[1]];
      assert s[1..] == rest;
    }
  }

  function Inside(quote: char): Mode {
    if quote == '"' then DQuote else SQuote
  }

  lemma DbTurns(s: string, out: seq<string>, buf: string)
    requires s != "" && IsQuote(Loader, s[0])
    ensures DbScan(s, out, buf, Plain) == DbScan(s[1..], out, buf + [s[0]], Inside(s[0]))
    ensures DbScan(s, out, buf, Inside(s[0])) == DbScan(s[1..], out, buf + [s[0]], Plain)
  {
    hide Strip;
    assert |s| > 1 ==> s[..2][0] == s[0];
  }

  lemma DbAtEnd(out: seq<string>, buf: string, mode: Mode)
    ensures DbScan("", out, buf, mode) == DbScan("", out, buf, Plain)
  {
  }

  lemma DbQuoted(p: Piece, rest: string, out: seq<string>, buf: string)
    requires (p.Quoted? || p.Unclosed?) && Reads(Loader, p, rest)
    ensures DbScan(Raw(p) + rest, out, buf, Plain) == DbScan(rest, out, buf + Raw(p), Plain)
  {
    hide DbScan;
    var q := p.quote;
    var s, end := Raw(p) + rest, if p.Quoted? then [q] + rest else "";
    assert s[1..] == p.body + end;
    DbTurns(s, out, buf);
    DbBody(q, p.body, end, out, buf + [q]);
    if p.Quoted? {
      DbTurns(end, out, buf + [q] + p.body);
      assert end[1..] == rest && buf + [q] + p.body + [q] == buf + Raw(p);
    } else {
      DbAtEnd(out, buf + [q] + p.body, Inside(q));
      assert buf + [q] + p.body == buf + Raw(p);
    }
  }

  lemma DbComments(s: string, out: seq<string>, buf: string)
    requires |s| > 1 && (s[..2] == "--" || s[..2] == "/*")
    ensures DbScan(s, out, buf, Plain) == DbScan(s[2..], out, buf, if s[0] == '-' then LineComment else BlockComment)
  {
    hide Strip;
  }

  lemma DbComment(p: Piece, rest: string, out: seq<string>, buf: string)
    requires (p.Line? || p.Block? || p.OpenBlock?) && Reads(Loader, p, rest)
    ensures DbScan(Raw(p) + rest, out, buf, Plain) == DbScan(rest, out, buf, Plain)
  {
    hide DbScan;
    var s := Raw(p) + rest;
    var end := if p.Block? then "*/" + rest else rest;
    assert s[..2] == if p.Line? then "--" else "/*";
    assert s[2..] == p.body + end;
    DbComments(s, out, buf);
    if p.Line? {
      LineBody(p.body, rest, out, buf);
    } else {
      assert p.Block? ==> end[2..] == rest;
      BlockBody(p.body, end, out, buf);
    }
  }

  // ---------------------------------------------------------------------
  // Statements
  // ---------------------------------------------------------------------

  lemma ReadsOn(d: Dialect, ps: seq<Piece>)
    requires ps != [] && ReadsAll(d, ps)
    ensures Reads(d, ps[0], RawAll(ps[1..])) && ReadsAll(d, ps[1..])
  {
    hide Reads, RawAll;
    forall i | 0 <= i < |ps[1..]| ensures Reads(d, ps[1..][i], RawAll(ps[1..][i + 1..])) {
      assert ps[1..][i + 1..] == ps[i + 2..] && ps[1..][i] == ps[i + 1];
    }
  }

  /** The pieces before the first separator fill one statement. */
  lemma {:induction false} ScanPieces(d: Dialect, ps: seq<Piece>, k: nat, out: seq<string>, buf: string)
    requires ReadsAll(d, ps) && k <= |ps| && forall i :: 0 <= i < k ==> !ps[i].Semicolon?
    ensures Scan(d, RawAll(ps), out, buf) == Scan(d, RawAll(ps[k..]), out, buf + KeptAll(ps[..k]))
  {
    hide Reads, Raw, Kept, Scan;
    if k == 0 {
      assert ps[0..] == ps && buf + KeptAll(ps[..0]) == buf;
    } else {
      ReadsOn(d, ps);
      ScanPiece(d, ps[0], RawAll(ps[1..]), out, buf);
      ScanPieces(d, ps[1..], k - 1, out, buf + Kept(ps[0]));
      assert ps[1..][k - 1..] == ps[k..] && ps[..k][1..] == ps[1..][..k - 1];
      assert buf + Kept(ps[0]) + KeptAll(ps[1..][..k - 1]) == buf + KeptAll(ps[..k]);
    }
  }

  /** What has been put out stays, and does not bear on the rest. */
  lemma {:induction false} OutFirst(d: Dialect, ps: seq<Piece>, out: seq<string>, buf: string)
    requires ReadsAll(d, ps)
    ensures Scan(d, RawAll(ps), out, buf) == out + Scan(d, RawAll(ps), [], buf)
    decreases |ps|
  {
    hide Reads, Raw, Kept, Scan, Close;
    CloseFirst(out, buf);
    if ps == [] {
      ScanEnd(d, out, buf);
      ScanEnd(d, [], buf);
    } else {
      var rest := RawAll(ps[1..]);
      ReadsOn(d, ps);
      ScanPiece(d, ps[0], rest, out, buf);
      ScanPiece(d, ps[0], rest, [], buf);
      if ps[0].Semicolon? {
        OutFirst(d, ps[1..], Close(out, buf), "");
        OutFirst(d, ps[1..], Close([], buf), "");
        assert out + Close([], buf) + Scan(d, rest, [], "") == out + (Close([], buf) + Scan(d, rest, [], ""));
      } else {
        OutFirst(d, ps[1..], out, buf + Kept(ps[0]));
      }
    }
  }

  lemma CloseFirst(out: seq<string>, buf: string)
    ensures Close(out, buf) == out + Close([], buf)
  {
  }

  lemma ScanEnd(d: Dialect, out: seq<string>, buf: string)
    ensures Scan(d, "", out, buf) == Close(out, buf)
  {
  }

  /** For every script and either splitter: it has pieces, and the statements are what they
      keep between the separators, stripped, without those of which nothing is left.
      Applied to what follows the first separator, and so on, this says all. */
  lemma SplitIs(d: Dialect, script: string) returns (ps: seq<Piece>)
    ensures RawAll(ps) == script && ReadsAll(d, ps)
    ensures (forall i :: 0 <= i < |ps| ==> !ps[i].Semicolon?) ==> Split(d, script) == Statement(ps)
    ensures forall k: nat :: k < |ps| && ps[k].Semicolon? && (forall i :: 0 <= i < k ==> !ps[i].Semicolon?) ==>
              Split(d, script) == Statement(ps[..k]) + Split(d, RawAll(ps[k + 1..]))
  {
    ps := HasPieces(d, script);
    SplitOf(d, ps);
    forall k: nat | k < |ps| && ps[k].Semicolon? && (forall i :: 0 <= i < k ==> !ps[i].Semicolon?)
      ensures Split(d, script) == Statement(ps[..k]) + Split(d, RawAll(ps[k + 1..]))
    {
      SplitAt(d, ps, k);
    }
  }

  lemma SplitIsScan(d: Dialect, script: string)
    ensures Split(d, script) == Scan(d, script, [], "")
  {
  }

  lemma SplitOf(d: Dialect, ps: seq<Piece>)
    requires ReadsAll(d, ps)
    ensures (forall i :: 0 <= i < |ps| ==> !ps[i].Semicolon?) ==> Split(d, RawAll(ps)) == Statement(ps)
  {
    hide Scan, Split, Strip;
    SplitIsScan(d, RawAll(ps));
    if forall i :: 0 <= i < |ps| ==> !ps[i].Semicolon? {
      ScanPieces(d, ps, |ps|, [], "");
      assert ps[|ps|..] == [] && ps[..|ps|] == ps && "" + KeptAll(ps) == KeptAll(ps);
      ScanEnd(d, [], KeptAll(ps));
    }
  }

  lemma SplitAt(d: Dialect, ps: seq<Piece>, k: nat)
    requires ReadsAll(d, ps) && k < |ps| && ps[k].Semicolon? && forall i :: 0 <= i < k ==> !ps[i].Semicolon?
    ensures Split(d, RawAll(ps)) == Statement(ps[..k]) + Split(d, RawAll(ps[k + 1..]))
  {
    hide Scan, Split, Strip, Reads;
    var text, rest := KeptAll(ps[..k]), RawAll(ps[k + 1..]);
    SplitIsScan(d, RawAll(ps));
    SplitIsScan(d, rest);
    ScanPieces(d, ps, k, [], "");
    assert "" + text == text && ps[k..][1..] == ps[k + 1..];
    ReadsFrom(d, ps, k);
    ReadsFrom(d, ps, k + 1);
    ScanPiece(d, Semicolon, rest, [], text);
    OutFirst(d, ps[k + 1..], Close([], text), "");
    assert Close([], text) == Statement(ps[..k]);
  }

  lemma ReadsFrom(d: Dialect, ps: seq<Piece>, k: nat)
    requires ReadsAll(d, ps) && k <= |ps|
    ensures ReadsAll(d, ps[k..]) && (k < |ps| ==> Reads(d, ps[k], RawAll(ps[k + 1..])))
  {
    hide Reads, RawAll;
    forall i | 0 <= i < |ps[k..]| ensures Reads(d, ps[k..][i], RawAll(ps[k..][i + 1..])) {
      assert ps[k..][i + 1..] == ps[k + i + 1..] && ps[k..][i] == ps[k + i];
    }
  }

  // ---------------------------------------------------------------------
  // The scripts on which the two can be compared, piece by piece
  // ---------------------------------------------------------------------

  predicate DashesAt(s: string, i: int) {
    0 <= i && i + 1 < |s| && s[i] == '-' && s[i + 1] == '-'
  }

  /** No single quote in double quotes; if it is to be one dialect, no semicolon and no
      double dash either. */
  ghost predicate BodyFits(body: string, one: bool) {
    '\'' !in body && (one ==> ';' !in body && forall i :: !DashesAt(body, i))
  }

  /** No block comment, and within double quotes only what fits. */
  ghost predicate Fits(p: Piece, one: bool) {
    !p.Block? && !p.OpenBlock? && ((p.Quoted? || p.Unclosed?) && p.quote == '"' ==> BodyFits(p.body, one))
  }

  predicate Holds(s: string, mode: Mode, one: bool) {
    if one then OneDialect(s, mode) else Comparable(s, mode)
  }

  lemma {:induction false} HoldsSingle(body: string, rest: string, one: bool)
    requires '\'' !in body && (rest == "" || rest[0] == '\'')
    ensures Holds(body + rest, SQuote, one) <==> Holds(rest, SQuote, one)
  {
    if body == "" {
      assert body + rest == rest;
    } else {
      assert body[0] in body && (body + rest)[0] == body[0] && (body + rest)[1..] == body[1..] + rest;
      HoldsSingle(body[1..], rest, one);
    }
  }

  lemma {:induction false} HoldsDouble(body: string, rest: string, one: bool)
    requires '"' !in body && (rest == "" || rest[0] == '"')
    ensures Holds(body + rest, DQuote, one) <==> BodyFits(body, one) && Holds(rest, DQuote, one)
  {
    if body == "" {
      assert body + rest == rest && BodyFits(body, one);
    } else {
      var s := body + rest;
      assert body[0] in body && s[0] == body[0] && s[1..] == body[1..] + rest;
      assert |s| > 1 ==> s[..2][0] == s[0] && s[..2][1] == s[1];
      assert |body| > 1 ==> s[1] == body[1];
      HoldsDouble(body[1..], rest, one);
      BodyTail(body, one);
    }
  }

  lemma BodyTail(body: string, one: bool)
    requires body != ""
    ensures BodyFits(body, one)
       <==> BodyFits(body[1..], one) && body[0] != '\'' && (one ==> body[0] != ';' && !DashesAt(body, 0))
  {
    assert body == [body[0]] + body[1..];
    forall i ensures i > 0 ==> (DashesAt(body, i) <==> DashesAt(body[1..], i - 1)) { }
    if forall i :: !DashesAt(body, i) {
      forall i ensures !DashesAt(body[1..], i) { assert !DashesAt(body, i + 1); }
    }
    if (forall i :: !DashesAt(body[1..], i)) && !DashesAt(body, 0) {
      forall i ensures !DashesAt(body, i) {
        if i > 0 { assert !DashesAt(body[1..], i - 1); }
      }
    }
  }

  lemma {:induction false} HoldsLine(body: string, rest: string, one: bool)
    requires '\n' !in body && (rest == "" || rest[0] == '\n')
    ensures Holds(body + rest, LineComment, one) <==> Holds(rest, Plain, one)
  {
    if body == "" {
      assert body + rest == rest;
    } else {
      assert body[0] in body && (body + rest)[0] == body[0] && (body + rest)[1..] == body[1..] + rest;
      HoldsLine(body[1..], rest, one);
    }
  }

  lemma HoldsTurns(s: string, one: bool)
    requires s != "" && IsQuote(Loader, s[0])
    ensures Holds(s, Plain, one) <==> Holds(s[1..], Inside(s[0]), one)
    ensures Holds(s, Inside(s[0]), one) <==> Holds(s[1..], Plain, one)
  {
    assert |s| > 1 ==> s[..2][0] == s[0];
  }

  lemma HoldsComments(s: string, one: bool)
    requires |s| > 1
    ensures s[..2] == "--" ==> (Holds(s, Plain, one) <==> Holds(s[2..], LineComment, one))
    ensures s[..2] == "/*" ==> !Holds(s, Plain, one)
  {
  }

  lemma HoldsPiece(p: Piece, rest: string, one: bool)
    requires Reads(Loader, p, rest)
    ensures Holds(Raw(p) + rest, Plain, one) <==> Fits(p, one) && Holds(rest, Plain, one)
  {
    var s := Raw(p) + rest;
    if p.Quoted? || p.Unclosed? {
      HoldsQuoted(p, rest, one);
    } else if p.Line? || p.Block? || p.OpenBlock? {
      assert s[..2] == if p.Line? then "--" else "/*";
      HoldsComments(s, one);
      if p.Line? {
        assert s[2..] == p.body + rest;
        HoldsLine(p.body, rest, one);
      }
    } else {
      assert |s| > 1 ==> s[..2] == [s[0], s[1]];
      assert s[1..] == rest;
    }
  }

  lemma HoldsQuoted(p: Piece, rest: string, one: bool)
    requires (p.Quoted? || p.Unclosed?) && Reads(Loader, p, rest)
    ensures Holds(Raw(p) + rest, Plain, one) <==> (p.quote == '"' ==> BodyFits(p.body, one)) && Holds(rest, Plain, one)
  {
    hide Holds, BodyFits;
    var q := p.quote;
    var s, end := Raw(p) + rest, if p.Quoted? then [q] + rest else "";
    assert s[1..] == p.body + end;
    HoldsTurns(s, one);
    if q == '"' { HoldsDouble(p.body, end, one); } else { HoldsSingle(p.body, end, one); }
    if p.Quoted? {
      HoldsTurns(end, one);
      assert end[1..] == rest;
    } else {
      HoldsNothing(Inside(q), one);
      HoldsNothing(Plain, one);
    }
  }

  lemma HoldsNothing(mode: Mode, one: bool)
    ensures Holds("", mode, one)
  {
  }

  /** The two conditions under which the splitters are compared, on the pieces. */
  lemma {:induction false} ConditionsAre(ps: seq<Piece>, one: bool)
    requires ReadsAll(Loader, ps)
    ensures (if one then OneDialect(RawAll(ps), Plain) else Comparable(RawAll(ps), Plain)) <==> forall p :: p in ps ==> Fits(p, one)
  {
    assert Holds(RawAll(ps), Plain, one) == if one then OneDialect(RawAll(ps), Plain) else Comparable(RawAll(ps), Plain);
    hide Reads, Raw, Fits, Holds, OneDialect, Comparable;
    if ps == [] {
      HoldsNothing(Plain, one);
    } else {
      ReadsOn(Loader, ps);
      HoldsPiece(ps[0], RawAll(ps[1..]), one);
      ConditionsAre(ps[1..], one);
      HoldsIs(RawAll(ps[1..]), one);
      assert ps == [ps[0]] + ps[1..];
    }
  }

  lemma HoldsIs(s: string, one: bool)
    ensures Holds(s, Plain, one) <==> if one then OneDialect(s, Plain) else Comparable(s, Plain)
  {
  }
}
