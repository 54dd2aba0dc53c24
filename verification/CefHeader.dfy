/** The header of an ArcSight Common Event Format line: seven fields and an
    extension, separated by `|`, with `\` escapes. */
module CefHeader {

  const HEADER_FIELDS: nat := 7

  /** The rest of a split: `out` are the parts closed so far, `cur` the open one. */
  function Scan(body: string, out: seq<string>, cur: string): seq<string> {
    if body == "" then out + [cur]
    else if body[0] == '\\' && |body| > 1 then Scan(body[2..], out, cur + [body[1]])
    else if body[0] == '|' && |out| < HEADER_FIELDS then Scan(body[1..], out + [cur], "")
    else Scan(body[1..], out, cur + [body[0]])
  }

  method CefSplit(body: string) returns (parts: seq<string>)
    ensures parts == Scan(body, [], "")
    ensures 1 <= |parts| <= HEADER_FIELDS + 1
  {
    var out, cur, i, n := [], "", 0, |body|;
    while i < n
      invariant 0 <= i <= n && |out| <= HEADER_FIELDS
      invariant Scan(body[i..], out, cur) == Scan(body, [], "")
    {
      var c := body[i];
      if c == '\\' && i + 1 < n {
        assert body[i..][2..] == body[i + 2..];
        cur := cur + [body[i + 1]];
        i := i + 2;
        continue;
      }
      assert body[i..][1..] == body[i + 1..];
      if c == '|' && |out| < 7 {
        out := out + [cur];
        cur := "";
        i := i + 1;
        continue;
      }
      cur := cur + [c];
      i := i + 1;
    }
    parts := out + [cur];
  }

  // ---------------------------------------------------------------------
  // The printer a CEF producer uses
  // ---------------------------------------------------------------------

  /** In a header field both the separator and the escape character are escaped. */
  function EscapeField(f: string): string {
    if f == "" then ""
    else (if f[0] == '\\' || f[0] == '|' then ['\\', f[0]] else [f[0]]) + EscapeField(f[1..])
  }

  /** In the extension only the escape character is: pipes are literal there. */
  function EscapeExtension(e: string): string {
    if e == "" then ""
    else (if e[0] == '\\' then ['\\', e[0]] else [e[0]]) + EscapeExtension(e[1..])
  }

  function Header(fields: seq<string>): string {
    if fields == [] then "" else EscapeField(fields[0]) + "|" + Header(fields[1..])
  }

  function Printed(fields: seq<string>, extension: string): string {
    Header(fields) + EscapeExtension(extension)
  }

  // One step of the scan.

  lemma ScanEscaped(c: char, rest: string, out: seq<string>, cur: string)
    ensures Scan(['\\', c] + rest, out, cur) == Scan(rest, out, cur + [c])
  {
    var s := ['\\', c] + rest;
    assert s[0] == '\\' && s[1] == c && s[2..] == rest;
  }

  lemma ScanPlain(c: char, rest: string, out: seq<string>, cur: string)
    requires c != '\\' && (c == '|' ==> |out| >= HEADER_FIELDS)
    ensures Scan([c] + rest, out, cur) == Scan(rest, out, cur + [c])
  {
    var s := [c] + rest;
    assert s[0] == c && s[1..] == rest;
  }

  lemma ScanSeparator(rest: string, out: seq<string>, cur: string)
    requires |out| < HEADER_FIELDS
    ensures Scan("|" + rest, out, cur) == Scan(rest, out + [cur], "")
  {
    var s := "|" + rest;
    assert s[0] == '|' && s[1..] == rest;
  }

  lemma Glue(cur: string, f: string)
    requires f != ""
    ensures cur + [f[0]] + f[1..] == cur + f
  {
  }

  /** Escaping, and what follows, one character on. */
  lemma EscapedHead(f: string, rest: string)
    requires f != ""
    ensures
      var c, tail := f[0], EscapeField(f[1..]) + rest;
      EscapeField(f) + rest == (if c == '\\' || c == '|' then ['\\', c] + tail else [c] + tail)
  {
  }

  lemma {:induction false} ScanField(f: string, rest: string, out: seq<string>, cur: string)
    ensures Scan(EscapeField(f) + rest, out, cur) == Scan(rest, out, cur + f)
  {
    if f == "" {
      assert EscapeField(f) + rest == rest && cur + f == cur;
    } else {
      hide Scan, EscapeField;
      var tail := EscapeField(f[1..]) + rest;
      EscapedHead(f, rest);
      if f[0] == '\\' || f[0] == '|' {
        ScanEscaped(f[0], tail, out, cur);
      } else {
        ScanPlain(f[0], tail, out, cur);
      }
      ScanField(f[1..], rest, out, cur + [f[0]]);
      Glue(cur, f);
    }
  }

  lemma ScanEnd(out: seq<string>, cur: string)
    ensures Scan("", out, cur) == out + [cur]
  {
  }

  lemma {:induction false} ScanExtension(e: string, out: seq<string>, cur: string)
    requires |out| == HEADER_FIELDS
    ensures Scan(EscapeExtension(e), out, cur) == out + [cur + e]
  {
    hide Scan;
    if e == "" {
      ScanEnd(out, cur);
      assert cur + e == cur;
    } else {
      var tail := EscapeExtension(e[1..]);
      if e[0] == '\\' {
        ScanEscaped(e[0], tail, out, cur);
      } else {
        ScanPlain(e[0], tail, out, cur);
      }
      ScanExtension(e[1..], out, cur + [e[0]]);
      Glue(cur, e);
    }
  }

  lemma {:induction false} ScanHeader(fields: seq<string>, rest: string, out: seq<string>)
    requires |out| + |fields| <= HEADER_FIELDS
    ensures Scan(Header(fields) + rest, out, "") == Scan(rest, out + fields, "")
  {
    hide Scan, EscapeField;
    if fields == [] {
      assert Header(fields) + rest == rest && out + fields == out;
    } else {
      var more := Header(fields[1..]) + rest;
      assert Header(fields) + rest == EscapeField(fields[0]) + ("|" + more);
      ScanField(fields[0], "|" + more, out, "");
      assert "" + fields[0] == fields[0];
      ScanSeparator(more, out, fields[0]);
      ScanHeader(fields[1..], rest, out + [fields[0]]);
      assert out + [fields[0]] + fields[1..] == out + fields;
    }
  }

  /** Reading what was printed gives back the seven fields and the extension,
      whatever characters they hold. */
  lemma SplitInvertsPrinter(fields: seq<string>, extension: string)
    requires |fields| == HEADER_FIELDS
    ensures Scan(Printed(fields, extension), [], "") == fields + [extension]
  {
    ScanHeader(fields, EscapeExtension(extension), []);
    assert [] + fields == fields && "" + extension == extension;
    ScanExtension(extension, fields, "");
  }

  /** On any input at all there are between one part and eight. */
  lemma {:induction false} NeverMoreThanEight(body: string, out: seq<string>, cur: string)
    requires |out| <= HEADER_FIELDS
    ensures |out| < |Scan(body, out, cur)| <= HEADER_FIELDS + 1
    ensures Scan(body, out, cur)[..|out|] == out
    decreases |body|
  {
    if body != "" {
      if body[0] == '\\' && |body| > 1 {
        NeverMoreThanEight(body[2..], out, cur + [body[1]]);
      } else if body[0] == '|' && |out| < HEADER_FIELDS {
        NeverMoreThanEight(body[1..], out + [cur], "");
        var all := Scan(body[1..], out + [cur], "");
        assert all[..|out|] == all[..|out| + 1][..|out|];
      } else {
        NeverMoreThanEight(body[1..], out, cur + [body[0]]);
      }
    }
  }

  /** After the seventh separator, text without escapes stays in one part, pipes and
      all. */
  lemma {:induction false} PipesAfterSeventhAreLiteral(body: string, out: seq<string>, cur: string)
    requires |out| == HEADER_FIELDS && '\\' !in body
    ensures Scan(body, out, cur) == out + [cur + body]
  {
    if body == "" {
      assert cur + body == cur;
    } else {
      PipesAfterSeventhAreLiteral(body[1..], out, cur + [body[0]]);
      assert cur + [body[0]] + body[1..] == cur + body;
    }
  }
}
