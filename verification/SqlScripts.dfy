/** The two splitters of a SQL script into statements: the schema loader's, which
    knows four kinds of quoting, and the PostgreSQL backend's, which knows two. */
module SqlScripts {
  import opened Text

  /** A statement is kept only when something is left of it. */
  function Close(out: seq<string>, buf: string): seq<string> {
    if Strip(buf) == "" then out else out + [Strip(buf)]
  }

  // ---------------------------------------------------------------------
  // db_backend.py
  // ---------------------------------------------------------------------

  function SkipLine(s: string): string {
    if s == "" || s[0] == '\n' then s else SkipLine(s[1..])
  }

  lemma {:induction false} SkipLineShortens(s: string)
    ensures |SkipLine(s)| <= |s|
    ensures s != "" && s[0] != '\n' ==> |SkipLine(s)| < |s|
  {
    if s != "" && s[0] != '\n' { SkipLineShortens(s[1..]); }
  }

  /** What the backend's loop still yields when the text `s` is ahead. */
  function PgScan(s: string, out: seq<string>, buf: string, inStr: bool): seq<string>
    decreases |s|
  {
    if s == "" then Close(out, buf)
    else
      var c := s[0];
      if inStr then PgScan(s[1..], out, buf + [c], c != '\'')
      else if c == '\'' then PgScan(s[1..], out, buf + [c], true)
      else if c == '-' && |s| > 1 && s[1] == '-' then
        SkipLineShortens(s);
        PgScan(SkipLine(s), out, buf, false)
      else if c == ';' then PgScan(s[1..], Close(out, buf), "", false)
      else PgScan(s[1..], out, buf + [c], false)
  }

  function PgSplit(script: string): seq<string> {
    PgScan(script, [], "", false)
  }

  /** The inner loop: over the rest of a line comment, up to its line break. */
  method EndOfLine(script: string, start: nat) returns (i: nat)
    requires start < |script| && script[start] != '\n'
    ensures start < i <= |script| && script[i..] == SkipLine(script[start..])
  {
    i := start;
    while i < |script| && script[i] != '\n'
      invariant start <= i <= |script|
      invariant SkipLine(script[i..]) == SkipLine(script[start..])
    {
      assert script[i..][1..] == script[i + 1..];
      i := i + 1;
    }
  }

  method PgSplitStatements(script: string) returns (out: seq<string>)
    ensures out == PgSplit(script)
  {
    var buf, inStr, i, n := "", false, 0, |script|;
    out := [];
    while i < n
      invariant 0 <= i <= n
      invariant PgScan(script[i..], out, buf, inStr) == PgSplit(script)
    {
      var c := script[i];
      assert script[i..][1..] == script[i + 1..];
      if inStr {
        buf := buf + [c];
        if c == '\'' {
          inStr := false;
        }
        i := i + 1;
        continue;
      }
      if c == '\'' {
        inStr := true;
        buf := buf + [c];
        i := i + 1;
        continue;
      }
      if c == '-' && i + 1 < n && script[i + 1] == '-' {
        i := EndOfLine(script, i);
        continue;
      }
      if c == ';' {
        var stmt := Strip(buf);
        if stmt != "" {
          out := out + [stmt];
        }
        buf := "";
        i := i + 1;
        continue;
      }
      buf := buf + [c];
      i := i + 1;
    }
    var tail := Strip(buf);
    if tail != "" {
      out := out + [tail];
    }
  }

  // ---------------------------------------------------------------------
  // db.py
  // ---------------------------------------------------------------------

  datatype Mode = Plain | SQuote | DQuote | LineComment | BlockComment

  function DbScan(s: string, out: seq<string>, buf: string, mode: Mode): seq<string>
    decreases |s|
  {
    if s == "" then Close(out, buf)
    else
      var c, pair := s[0], s[..if |s| > 1 then 2 else 1];
      match mode
      case LineComment =>
        if c == '\n' then DbScan(s[1..], out, buf + [c], Plain) else DbScan(s[1..], out, buf, LineComment)
      case BlockComment =>
        if pair == "*/" then DbScan(s[2..], out, buf, Plain) else DbScan(s[1..], out, buf, BlockComment)
      case SQuote => DbScan(s[1..], out, buf + [c], if c == '\'' then Plain else SQuote)
      case DQuote => DbScan(s[1..], out, buf + [c], if c == '"' then Plain else DQuote)
      case Plain =>
        if pair == "--" then DbScan(s[2..], out, buf, LineComment)
        else if pair == "/*" then DbScan(s[2..], out, buf, BlockComment)
        else if c == '\'' then DbScan(s[1..], out, buf + [c], SQuote)
        else if c == '"' then DbScan(s[1..], out, buf + [c], DQuote)
        else if c == ';' then DbScan(s[1..], Close(out, buf), "", Plain)
        else DbScan(s[1..], out, buf + [c], Plain)
  }

  function DbSplit(sql: string): seq<string> {
    DbScan(sql, [], "", Plain)
  }

  method DbSplitStatements(sql: string) returns (out: seq<string>)
    ensures out == DbSplit(sql)
  {
    var buf, i, n := "", 0, |sql|;
    var inSQuote, inDQuote, inLine, inBlock := false, false, false, false;
    out := [];
    while i < n
      invariant 0 <= i <= n
      invariant AtMostOne(inSQuote, inDQuote, inLine, inBlock)
      invariant DbScan(sql[i..], out, buf, ModeOf(inSQuote, inDQuote, inLine, inBlock)) == DbSplit(sql)
    {
      var c := sql[i];
      var pair := if i + 1 < n then sql[i..i + 2] else [c];
      assert sql[i..][1..] == sql[i + 1..];
      assert i + 1 < n ==> sql[i..][2..] == sql[i + 2..];
      assert pair == sql[i..][..if |sql[i..]| > 1 then 2 else 1];
      if inLine {
        if c == '\n' {
          inLine := false;
          buf := buf + [c];
        }
        i := i + 1;
        continue;
      }
      if inBlock {
        if pair == "*/" {
          inBlock := false;
          i := i + 2;
          continue;
        }
        i := i + 1;
        continue;
      }
      if inSQuote {
        buf := buf + [c];
        if c == '\'' {
          inSQuote := false;
        }
        i := i + 1;
        continue;
      }
      if inDQuote {
        buf := buf + [c];
        if c == '"' {
          inDQuote := false;
        }
        i := i + 1;
        continue;
      }
      if pair == "--" {
        inLine := true;
        i := i + 2;
        continue;
      }
      if pair == "/*" {
        inBlock := true;
        i := i + 2;
        continue;
      }
      if c == '\'' {
        inSQuote := true;
        buf := buf + [c];
        i := i + 1;
        continue;
      }
      if c == '"' {
        inDQuote := true;
        buf := buf + [c];
        i := i + 1;
        continue;
      }
      if c == ';' {
        var stmt := Strip(buf);
        if stmt != "" {
          out := out + [stmt];
        }
        buf := "";
        i := i + 1;
        continue;
      }
      buf := buf + [c];
      i := i + 1;
    }
    var tail := Strip(buf);
    if tail != "" {
      out := out + [tail];
    }
  }

  function ModeOf(sq: bool, dq: bool, line: bool, block: bool): Mode {
    if line then LineComment else if block then BlockComment else if sq then SQuote else if dq then DQuote else Plain
  }

  predicate AtMostOne(sq: bool, dq: bool, line: bool, block: bool) {
    && !(line && (block || sq || dq)) && !(block && (sq || dq)) && !(sq && dq)
  }

  // ---------------------------------------------------------------------
  // The two agree
  // ---------------------------------------------------------------------

  /** Scanned as the loader does, the text opens no block comment, and inside double
      quotes it holds nothing that means something to the backend: no semicolon, no
      single quote, no double dash. */
  predicate OneDialect(s: string, mode: Mode)
    decreases |s|
  {
    if s == "" then true
    else
      var c, pair := s[0], s[..if |s| > 1 then 2 else 1];
      match mode
      case LineComment => OneDialect(s[1..], if c == '\n' then Plain else LineComment)
      case SQuote => OneDialect(s[1..], if c == '\'' then Plain else SQuote)
      case DQuote => c != ';' && c != '\'' && pair != "--" && OneDialect(s[1..], if c == '"' then Plain else DQuote)
      case BlockComment => false
      case Plain =>
        if pair == "--" then OneDialect(s[2..], LineComment)
        else pair != "/*" && OneDialect(s[1..], Opened(c))
  }

  /** The mode after a character outside quotes and comments. */
  function Opened(c: char): Mode {
    if c == '\'' then SQuote else if c == '"' then DQuote else Plain
  }

  lemma {:induction false} Agree(s: string, out: seq<string>, buf: string, mode: Mode)
    requires OneDialect(s, mode) && !mode.BlockComment?
    ensures mode.Plain? || mode.DQuote? ==> DbScan(s, out, buf, mode) == PgScan(s, out, buf, false)
    ensures mode.SQuote? ==> DbScan(s, out, buf, mode) == PgScan(s, out, buf, true)
    ensures mode.LineComment? ==> DbScan(s, out, buf, mode) == PgScan(SkipLine(s), out, buf, false)
    decreases |s|
  {
    if s != "" {
      var c, pair := s[0], s[..if |s| > 1 then 2 else 1];
      match mode
      case LineComment => Agree(s[1..], out, if c == '\n' then buf + [c] else buf, if c == '\n' then Plain else LineComment);
      case SQuote => Agree(s[1..], out, buf + [c], if c == '\'' then Plain else SQuote);
      case DQuote =>
        assert |s| > 1 ==> pair[1] == s[1];
        Agree(s[1..], out, buf + [c], if c == '"' then Plain else DQuote);
      case Plain =>
        if pair == "--" {
          Agree(s[2..], out, buf, LineComment);
          assert s[1..][1..] == s[2..];
          assert SkipLine(s) == SkipLine(s[1..]) == SkipLine(s[2..]);
        } else {
          assert |s| > 1 ==> pair[1] == s[1];
          if c == ';' {
            Agree(s[1..], Close(out, buf), "", Plain);
          } else {
            Agree(s[1..], out, buf + [c], Opened(c));
          }
        }
    }
  }

  predicate SlashStarAt(s: string, i: int) {
    0 <= i && i + 1 < |s| && s[i] == '/' && s[i + 1] == '*'
  }

  ghost predicate NoSlashStar(s: string) {
    forall i :: !SlashStarAt(s, i)
  }

  lemma TailHasNone(s: string, k: nat)
    requires k <= |s| && '"' !in s && NoSlashStar(s)
    ensures '"' !in s[k..] && NoSlashStar(s[k..])
  {
    forall i ensures !SlashStarAt(s[k..], i) {
      assert !SlashStarAt(s, k + i);
    }
  }

  /** The simple condition of a caller: no double quote and no slash-star at all. */
  lemma {:induction false} NoQuoteNoBlock(s: string, mode: Mode)
    requires '"' !in s && NoSlashStar(s)
    requires !mode.DQuote? && !mode.BlockComment?
    ensures OneDialect(s, mode)
    decreases |s|
  {
    if s != "" {
      assert !SlashStarAt(s, 0);
      TailHasNone(s, 1);
      if mode.Plain? && |s| > 1 && s[..2] == "--" {
        TailHasNone(s, 2);
        NoQuoteNoBlock(s[2..], LineComment);
      } else {
        NoQuoteNoBlock(s[1..], Plain);
        NoQuoteNoBlock(s[1..], SQuote);
        NoQuoteNoBlock(s[1..], LineComment);
        assert s[0] in s;
      }
    }
  }

  lemma SplittersAgree(script: string)
    requires OneDialect(script, Plain)
    ensures DbSplit(script) == PgSplit(script)
  {
    Agree(script, [], "", Plain);
  }

  lemma SplittersAgreeSimply(script: string)
    requires '"' !in script && NoSlashStar(script)
    ensures DbSplit(script) == PgSplit(script)
  {
    NoQuoteNoBlock(script, Plain);
    SplittersAgree(script);
  }

  // ---------------------------------------------------------------------
  // And otherwise do not
  // ---------------------------------------------------------------------

  /** No block comment is opened, and no single quote stands inside double quotes. */
  predicate Comparable(s: string, mode: Mode)
    decreases |s|
  {
    if s == "" then true
    else
      var c, pair := s[0], s[..if |s| > 1 then 2 else 1];
      match mode
      case LineComment => Comparable(s[1..], if c == '\n' then Plain else LineComment)
      case SQuote => Comparable(s[1..], if c == '\'' then Plain else SQuote)
      case DQuote => c != '\'' && Comparable(s[1..], if c == '"' then Plain else DQuote)
      case BlockComment => false
      case Plain =>
        if pair == "--" then Comparable(s[2..], LineComment)
        else pair != "/*" && Comparable(s[1..], Opened(c))
  }

  lemma {:induction false} LStripSnoc(buf: string, c: char)
    ensures LStrip(buf) != "" ==> LStrip(buf + [c]) == LStrip(buf) + [c]
    ensures !IsSpace(c) ==> LStrip(buf + [c]) == LStrip(buf) + [c]
  {
    if buf == "" {
      assert buf + [c] == [c];
    } else {
      assert (buf + [c])[1..] == buf[1..] + [c];
      LStripSnoc(buf[1..], c);
    }
  }

  lemma StripOfStarted(buf: string)
    requires LStrip(buf) != ""
    ensures Strip(buf) != "" && Strip(buf) <= LStrip(buf)
  {
    LStripHead(buf);
    RStripKeepsHead(LStrip(buf));
    RStripKeeps(LStrip(buf), 1);
  }

  /** Stripping the end does not go beyond a character that is no space. */
  lemma {:induction false} RStripKeeps(s: string, k: nat)
    requires 0 < k <= |s| && !IsSpace(s[k - 1])
    ensures s[..k] <= RStrip(s)
  {
    if IsSpace(s[|s| - 1]) {
      assert s[..|s| - 1][..k] == s[..k];
      RStripKeeps(s[..|s| - 1], k);
    }
  }

  /** What has been put out stays. */
  lemma {:induction false} DbOut(s: string, out: seq<string>, buf: string, mode: Mode)
    ensures out <= DbScan(s, out, buf, mode)
    decreases |s|
  {
    hide Strip;
    if s != "" {
      var c, pair := s[0], s[..if |s| > 1 then 2 else 1];
      match mode
      case LineComment => DbOut(s[1..], out, if c == '\n' then buf + [c] else buf, if c == '\n' then Plain else LineComment);
      case BlockComment =>
        if pair == "*/" { DbOut(s[2..], out, buf, Plain); } else { DbOut(s[1..], out, buf, BlockComment); }
      case SQuote => DbOut(s[1..], out, buf + [c], if c == '\'' then Plain else SQuote);
      case DQuote => DbOut(s[1..], out, buf + [c], if c == '"' then Plain else DQuote);
      case Plain =>
        if pair == "--" {
          DbOut(s[2..], out, buf, LineComment);
        } else if pair == "/*" {
          DbOut(s[2..], out, buf, BlockComment);
        } else if c == ';' {
          DbOut(s[1..], Close(out, buf), "", Plain);
        } else {
          DbOut(s[1..], out, buf + [c], Opened(c));
        }
    }
  }

  lemma {:induction false} PgOut(s: string, out: seq<string>, buf: string, inStr: bool)
    ensures out <= PgScan(s, out, buf, inStr)
    decreases |s|
  {
    hide Strip;
    if s != "" {
      var c := s[0];
      if !inStr && c == '-' && |s| > 1 && s[1] == '-' {
        SkipLineShortens(s);
        PgOut(SkipLine(s), out, buf, false);
      } else if !inStr && c == ';' {
        PgOut(s[1..], Close(out, buf), "", false);
      } else {
        PgOut(s[1..], out, buf + [c], if inStr then c != '\'' else c == '\'');
      }
    }
  }

  /** The text at hand, up to a character that is no space, begins the next statement of
      the loader. */
  ghost predicate Begins(p: string, buf: string) {
    p != "" && !IsSpace(p[|p| - 1]) && p <= LStrip(buf)
  }

  lemma BeginsStatement(p: string, out: seq<string>, buf: string)
    requires Begins(p, buf)
    ensures Close(out, buf) == out + [Strip(buf)] && p <= Strip(buf)
  {
    RStripKeeps(LStrip(buf), |p|);
  }

  lemma BeginsSnoc(p: string, buf: string, c: char)
    requires Begins(p, buf)
    ensures Begins(p, buf + [c])
  {
    LStripSnoc(buf, c);
  }

  lemma {:induction false} DbKeeps(s: string, out: seq<string>, buf: string, mode: Mode, p: string)
    requires Begins(p, buf)
    ensures |DbScan(s, out, buf, mode)| > |out| && p <= DbScan(s, out, buf, mode)[|out|]
    decreases |s|
  {
    hide Strip, Begins;
    BeginsStatement(p, out, buf);
    if s != "" {
      var c, pair := s[0], s[..if |s| > 1 then 2 else 1];
      BeginsSnoc(p, buf, c);
      match mode
      case LineComment => DbKeeps(s[1..], out, if c == '\n' then buf + [c] else buf, if c == '\n' then Plain else LineComment, p);
      case BlockComment =>
        if pair == "*/" { DbKeeps(s[2..], out, buf, Plain, p); } else { DbKeeps(s[1..], out, buf, BlockComment, p); }
      case SQuote => DbKeeps(s[1..], out, buf + [c], if c == '\'' then Plain else SQuote, p);
      case DQuote => DbKeeps(s[1..], out, buf + [c], if c == '"' then Plain else DQuote, p);
      case Plain =>
        if pair == "--" {
          DbKeeps(s[2..], out, buf, LineComment, p);
        } else if pair == "/*" {
          DbKeeps(s[2..], out, buf, BlockComment, p);
        } else if c == ';' {
          DbOut(s[1..], Close(out, buf), "", Plain);
        } else {
          DbKeeps(s[1..], out, buf + [c], Opened(c), p);
        }
    }
  }

  /** The text at hand goes on into the next statement of the backend, as far as that
      reaches. */
  lemma {:induction false} PgKeeps(s: string, out: seq<string>, buf: string, inStr: bool, q: string)
    requires q != "" && q <= LStrip(buf)
    ensures
      var r := PgScan(s, out, buf, inStr);
      |r| > |out| && forall i :: 0 <= i < |q| && i < |r[|out|]| ==> r[|out|][i] == q[i]
    decreases |s|
  {
    hide Strip, LStrip;
    StripOfStarted(buf);
    if s != "" {
      var c := s[0];
      if !inStr && c == '-' && |s| > 1 && s[1] == '-' {
        SkipLineShortens(s);
        PgKeeps(SkipLine(s), out, buf, false, q);
      } else if !inStr && c == ';' {
        PgOut(s[1..], Close(out, buf), "", false);
      } else {
        LStripSnoc(buf, c);
        PgKeeps(s[1..], out, buf + [c], if inStr then c != '\'' else c == '\'', q);
      }
    }
  }

  lemma {:induction false} SkipLineStops(s: string)
    ensures SkipLine(s) == "" || SkipLine(s)[0] == '\n'
  {
    if s != "" && s[0] != '\n' { SkipLineStops(s[1..]); }
  }

  /** A semicolon inside double quotes ends the backend's statement and is a character
      of the loader's. */
  lemma SemicolonDivides(s: string, out: seq<string>, buf: string)
    requires s != "" && s[0] == ';' && LStrip(buf) != ""
    ensures DbScan(s, out, buf, DQuote) != PgScan(s, out, buf, false)
  {
    hide Strip, LStrip;
    var p := LStrip(buf) + [';'];
    LStripSnoc(buf, ';');
    NoSpaces();
    assert Begins(p, buf + [';']);
    DbKeeps(s[1..], out, buf + [';'], DQuote, p);
    StripOfStarted(buf);
    PgOut(s[1..], Close(out, buf), "", false);
  }

  lemma NoSpaces()
    ensures !IsSpace(';') && !IsSpace('-') && !IsSpace('"')
  {
    assert ';' as int == 59 && '-' as int == 45 && '"' as int == 34;
  }

  /** A double dash inside double quotes hides the rest of the line from the backend. */
  lemma DashesDivide(s: string, out: seq<string>, buf: string)
    requires |s| > 1 && s[0] == '-' && s[1] == '-' && LStrip(buf) != ""
    ensures DbScan(s, out, buf, DQuote) != PgScan(s, out, buf, false)
  {
    hide Strip, LStrip;
    var k := |LStrip(buf)|;
    var p, q := LStrip(buf) + ['-'], LStrip(buf) + ['\n'];
    LStripSnoc(buf, '-');
    NoSpaces();
    assert Begins(p, buf + ['-']);
    DbKeeps(s[1..], out, buf + ['-'], DQuote, p);
    SkipLineShortens(s);
    SkipLineStops(s);
    var rest := SkipLine(s);
    if rest == "" {
      StripOfStarted(buf);
    } else {
      LStripSnoc(buf, '\n');
      PgKeeps(rest[1..], out, buf + ['\n'], false, q);
      assert p[k] == '-' && q[k] == '\n';
    }
  }

  lemma {:induction false} Disagree(s: string, out: seq<string>, buf: string, mode: Mode)
    requires Comparable(s, mode) && !OneDialect(s, mode) && !mode.BlockComment?
    requires mode.DQuote? ==> LStrip(buf) != ""
    ensures mode.Plain? || mode.DQuote? ==> DbScan(s, out, buf, mode) != PgScan(s, out, buf, false)
    ensures mode.SQuote? ==> DbScan(s, out, buf, mode) != PgScan(s, out, buf, true)
    ensures mode.LineComment? ==> DbScan(s, out, buf, mode) != PgScan(SkipLine(s), out, buf, false)
    decreases |s|
  {
    hide Strip, LStrip;
    var c, pair := s[0], s[..if |s| > 1 then 2 else 1];
    LStripSnoc(buf, c);
    assert |s| > 1 ==> pair[1] == s[1];
    match mode
    case LineComment => Disagree(s[1..], out, if c == '\n' then buf + [c] else buf, if c == '\n' then Plain else LineComment);
    case SQuote => Disagree(s[1..], out, buf + [c], if c == '\'' then Plain else SQuote);
    case DQuote =>
      if c == ';' {
        SemicolonDivides(s, out, buf);
      } else if pair == "--" {
        DashesDivide(s, out, buf);
      } else {
        Disagree(s[1..], out, buf + [c], if c == '"' then Plain else DQuote);
      }
    case Plain =>
      if pair == "--" {
        Disagree(s[2..], out, buf, LineComment);
        assert s[1..][1..] == s[2..];
        assert SkipLine(s) == SkipLine(s[1..]) == SkipLine(s[2..]);
      } else if c == ';' {
        Disagree(s[1..], Close(out, buf), "", Plain);
      } else {
        NoSpaces();
        Disagree(s[1..], out, buf + [c], Opened(c));
      }
  }

  /** Exactly when: on scripts that open no block comment and hold no single quote inside
      double quotes, the lists are equal if and only if no semicolon and no double dash
      stands inside double quotes either. */
  lemma SplittersAgreeIff(script: string)
    requires Comparable(script, Plain)
    ensures DbSplit(script) == PgSplit(script) <==> OneDialect(script, Plain)
  {
    if OneDialect(script, Plain) {
      Agree(script, [], "", Plain);
    } else {
      Disagree(script, [], "", Plain);
    }
  }

  /** Where the dialects differ, so do the lists: a quoted name with a semicolon
      is one statement to the loader and two to the backend. */
  lemma DoubleQuotesDiffer()
    ensures DbSplit("\";\"") == ["\";\""] && PgSplit("\";\"") == ["\"", "\""]
  {
    hide DbScan, PgScan;
    QuotedInDb();
    QuotedInPg();
  }

  lemma QuoteIsNoSpace(c: char)
    requires c == '"'
    ensures !IsSpace(c)
  {
    assert c as int == 34;
  }

  lemma QuotedInDb()
    ensures DbSplit("\";\"") == ["\";\""]
  {
    hide Strip;
    var q, s := "\"", "\";\"";
    assert s[1..] == ";\"" && s[1..][1..] == q && q[1..] == "";
    assert "" + ['"'] == q && q + [';'] == "\";" && "\";" + ['"'] == s;
    QuoteIsNoSpace('"');
    StrippedIsFixed(s);
    assert s[..2] == "\";" && s[..2] != "--" && s[..2] != "/*";
    assert DbScan(s, [], "", Plain) == DbScan(";\"", [], q, DQuote);
    assert DbScan(";\"", [], q, DQuote) == DbScan(q, [], "\";", DQuote);
    assert DbScan(q, [], "\";", DQuote) == DbScan("", [], s, Plain);
  }

  lemma QuotedInPg()
    ensures PgSplit("\";\"") == ["\"", "\""]
  {
    hide Strip;
    var q, s := "\"", "\";\"";
    assert s[1..] == ";\"" && s[1..][1..] == q && q[1..] == "";
    assert "" + ['"'] == q;
    QuoteIsNoSpace('"');
    StrippedIsFixed(q);
    assert PgScan(s, [], "", false) == PgScan(";\"", [], q, false);
    assert PgScan(";\"", [], q, false) == PgScan(q, [q], "", false);
    assert PgScan(q, [q], "", false) == PgScan("", [q], q, false);
  }

  // ---------------------------------------------------------------------
  // Splitting again
  // ---------------------------------------------------------------------

  /** Scanned from the given quoting state, the text shows no separator and no
      comment. */
  predicate Clean(t: string, inStr: bool) {
    t == "" ||
    if inStr then Clean(t[1..], t[0] != '\'')
    else t[0] != ';' && !(t[0] == '-' && |t| > 1 && t[1] == '-') && Clean(t[1..], t[0] == '\'')
  }

  /** The quoting state after the text. */
  function InString(t: string, inStr: bool): bool {
    if t == "" then inStr else InString(t[1..], if inStr then t[0] != '\'' else t[0] == '\'')
  }

  lemma {:induction false} CleanSnoc(t: string, inStr: bool, c: char)
    requires Clean(t, inStr)
    requires InString(t, inStr) || (c != ';' && (t != "" && t[|t| - 1] == '-' ==> c != '-'))
    ensures Clean(t + [c], inStr)
    ensures InString(t + [c], inStr) == (if InString(t, inStr) then c != '\'' else c == '\'')
  {
    if t == "" {
      assert t + [c] == [c];
    } else {
      assert (t + [c])[1..] == t[1..] + [c];
      CleanSnoc(t[1..], if inStr then t[0] != '\'' else t[0] == '\'', c);
    }
  }

  /** Reading a clean text only fills the buffer. */
  lemma {:induction false} ScanClean(t: string, rest: string, out: seq<string>, buf: string, inStr: bool)
    requires Clean(t, inStr) && (rest == "" || rest[0] == ';')
    ensures PgScan(t + rest, out, buf, inStr) == PgScan(rest, out, buf + t, InString(t, inStr))
  {
    if t == "" {
      assert t + rest == rest && buf + t == buf;
    } else {
      assert (t + rest)[0] == t[0] && (t + rest)[1..] == t[1..] + rest;
      assert |t| == 1 && rest != "" ==> (t + rest)[1] == ';';
      assert |t| > 1 ==> (t + rest)[1] == t[1];
      ScanClean(t[1..], rest, out, buf + [t[0]], if inStr then t[0] != '\'' else t[0] == '\'');
      assert buf + [t[0]] + t[1..] == buf + t;
    }
  }

  // A quote is not a space, so stripping changes neither the state nor cleanness.

  lemma {:induction false} LStripClean(t: string)
    requires Clean(t, false)
    ensures Clean(LStrip(t), false) && InString(LStrip(t), false) == InString(t, false)
  {
    if t != "" && IsSpace(t[0]) { LStripClean(t[1..]); }
  }

  lemma {:induction false} CleanInit(t: string, inStr: bool)
    requires t != "" && Clean(t, inStr) && IsSpace(t[|t| - 1])
    ensures Clean(t[..|t| - 1], inStr) && InString(t[..|t| - 1], inStr) == InString(t, inStr)
  {
    if |t| > 1 {
      CleanInit(t[1..], if inStr then t[0] != '\'' else t[0] == '\'');
      assert t[..|t| - 1][1..] == t[1..][..|t| - 2];
    }
  }

  lemma {:induction false} RStripClean(t: string)
    requires Clean(t, false)
    ensures Clean(RStrip(t), false) && InString(RStrip(t), false) == InString(t, false)
  {
    if t != "" && IsSpace(t[|t| - 1]) {
      CleanInit(t, false);
      RStripClean(t[..|t| - 1]);
    }
  }

  lemma StripClean(t: string)
    requires Clean(t, false)
    ensures Clean(Strip(t), false) && InString(Strip(t), false) == InString(t, false)
  {
    LStripClean(t);
    RStripClean(LStrip(t));
  }

  /** What every list of statements looks like: stripped and not empty, nothing
      unquoted in them that separates or comments, and every string closed, except
      perhaps in the last. */
  predicate GoodStatement(t: string) {
    t != "" && Stripped(t) && Clean(t, false)
  }

  ghost predicate GoodStatements(out: seq<string>) {
    && (forall i :: 0 <= i < |out| ==> GoodStatement(out[i]))
    && (forall i :: 0 <= i < |out| - 1 ==> !InString(out[i], false))
  }

  ghost predicate AllClosed(out: seq<string>) {
    forall i :: 0 <= i < |out| ==> GoodStatement(out[i]) && !InString(out[i], false)
  }

  lemma CloseGood(out: seq<string>, buf: string)
    requires AllClosed(out) && Clean(buf, false)
    ensures GoodStatements(Close(out, buf))
    ensures !InString(buf, false) ==> AllClosed(Close(out, buf))
  {
    StripClean(buf);
    StripStrips(buf);
  }

  lemma SkipLineStop(s: string)
    ensures SkipLine(s) == "" || SkipLine(s)[0] == '\n'
  {
  }

  lemma {:induction false} ScanGood(s: string, out: seq<string>, buf: string, inStr: bool)
    requires AllClosed(out) && Clean(buf, false) && InString(buf, false) == inStr
    requires !inStr && buf != "" && buf[|buf| - 1] == '-' ==> s == "" || s[0] != '-'
    ensures GoodStatements(PgScan(s, out, buf, inStr))
    decreases |s|
  {
    if s == "" {
      CloseGood(out, buf);
    } else {
      var c := s[0];
      if inStr || c == '\'' {
        CleanSnoc(buf, false, c);
        ScanGood(s[1..], out, buf + [c], if inStr then c != '\'' else true);
      } else if c == '-' && |s| > 1 && s[1] == '-' {
        SkipLineShortens(s);
        SkipLineStop(s);
        ScanGood(SkipLine(s), out, buf, false);
      } else if c == ';' {
        CloseGood(out, buf);
        ScanGood(s[1..], Close(out, buf), "", false);
      } else {
        CleanSnoc(buf, false, c);
        ScanGood(s[1..], out, buf + [c], false);
      }
    }
  }

  /** No statement the backend's splitter returns holds an unquoted semicolon or
      comment, is empty, or has space around it. */
  lemma StatementsAreGood(script: string)
    ensures GoodStatements(PgSplit(script))
  {
    ScanGood(script, [], "", false);
  }

  function Join(parts: seq<string>): string {
    if parts == [] then "" else if |parts| == 1 then parts[0] else parts[0] + ";" + Join(parts[1..])
  }

  lemma {:induction false} ScanJoined(parts: seq<string>, out: seq<string>)
    requires GoodStatements(parts)
    ensures PgScan(Join(parts), out, "", false) == out + parts
  {
    hide *;
    if |parts| == 0 {
      JoinShort(parts);
      ScanNothing(out);
      assert out + parts == out;
    } else if |parts| == 1 {
      JoinShort(parts);
      FirstStatement(parts);
      ScanLast(parts[0], out);
      assert out + parts == out + [parts[0]];
    } else {
      JoinLong(parts);
      FirstStatement(parts);
      ScanOne(parts[0], Join(parts[1..]), out);
      ScanJoined(parts[1..], out + [parts[0]]);
      assert out + [parts[0]] + parts[1..] == out + parts;
    }
  }

  lemma JoinShort(parts: seq<string>)
    requires |parts| <= 1
    ensures Join(parts) == if parts == [] then "" else parts[0]
  {
  }

  lemma JoinLong(parts: seq<string>)
    requires |parts| > 1
    ensures Join(parts) == parts[0] + (";" + Join(parts[1..]))
  {
    assert parts[0] + ";" + Join(parts[1..]) == parts[0] + (";" + Join(parts[1..]));
  }

  lemma FirstStatement(parts: seq<string>)
    requires GoodStatements(parts) && parts != []
    ensures GoodStatement(parts[0]) && (|parts| > 1 ==> !InString(parts[0], false))
    ensures GoodStatements(parts[1..])
  {
    hide GoodStatement, InString;
    var tail := parts[1..];
    assert forall i :: 0 <= i < |tail| ==> tail[i] == parts[i + 1];
  }

  lemma ScanNothing(out: seq<string>)
    ensures PgScan("", out, "", false) == out
  {
    assert Strip("") == "";
  }

  lemma ScanLast(t: string, out: seq<string>)
    requires GoodStatement(t)
    ensures PgScan(t, out, "", false) == out + [t]
  {
    hide Clean, InString, Strip;
    StrippedIsFixed(t);
    assert t + "" == t && "" + t == t;
    ScanClean(t, "", out, "", false);
  }

  lemma ScanOne(t: string, rest: string, out: seq<string>)
    requires GoodStatement(t) && !InString(t, false)
    ensures PgScan(t + (";" + rest), out, "", false) == PgScan(rest, out + [t], "", false)
  {
    hide Clean, InString, Strip, PgScan;
    StrippedIsFixed(t);
    assert "" + t == t && (";" + rest)[1..] == rest;
    ScanClean(t, ";" + rest, out, "", false);
    ScanSemicolon(";" + rest, out, t);
  }

  lemma ScanSemicolon(s: string, out: seq<string>, buf: string)
    requires s != "" && s[0] == ';'
    ensures PgScan(s, out, buf, false) == PgScan(s[1..], Close(out, buf), "", false)
  {
  }

  /** Joining the statements with semicolons and splitting again gives the same
      list: for every script. */
  lemma SplitJoinSplit(script: string)
    ensures PgSplit(Join(PgSplit(script))) == PgSplit(script)
  {
    StatementsAreGood(script);
    ScanJoined(PgSplit(script), []);
    assert [] + PgSplit(script) == PgSplit(script);
  }
}
