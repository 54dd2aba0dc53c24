/** The string operations of the program's language that several components use. */
module Text {

  /** The characters `str.strip()` removes. */
  predicate IsSpace(c: char) {
    var n := c as int;
    9 <= n <= 13 || 28 <= n <= 32 || n == 0x85 || n == 0xA0 || n == 0x1680 || 0x2000 <= n <= 0x200A
    || n == 0x2028 || n == 0x2029 || n == 0x202F || n == 0x205F || n == 0x3000
  }

  function LStrip(s: string): string {
    if s != "" && IsSpace(s[0]) then LStrip(s[1..]) else s
  }

  function RStrip(s: string): string {
    if s != "" && IsSpace(s[|s| - 1]) then RStrip(s[..|s| - 1]) else s
  }

  function Strip(s: string): string {
    RStrip(LStrip(s))
  }

  predicate Stripped(s: string) {
    s == "" || (!IsSpace(s[0]) && !IsSpace(s[|s| - 1]))
  }

  /** `str.lower()` on ASCII. */
  function LowerChar(c: char): (lower: char)
    ensures 'A' <= c <= 'Z' ==> lower as int == c as int + 32
    ensures !('A' <= c <= 'Z') ==> lower == c
  {
    if 'A' <= c <= 'Z' then c - 'A' + 'a' else c
  }

  function Lower(s: string): (t: string)
    ensures |t| == |s|
    ensures forall i :: 0 <= i < |s| ==> t[i] == LowerChar(s[i])
  {
    if s == "" then "" else [LowerChar(s[0])] + Lower(s[1..])
  }

  lemma {:induction false} RStripKeepsHead(s: string)
    ensures RStrip(s) <= s
    ensures RStrip(s) == "" || !IsSpace(RStrip(s)[|RStrip(s)| - 1])
  {
    if s != "" && IsSpace(s[|s| - 1]) {
      RStripKeepsHead(s[..|s| - 1]);
    }
  }

  lemma {:induction false} LStripHead(s: string)
    ensures LStrip(s) == "" || !IsSpace(LStrip(s)[0])
  {
    if s != "" && IsSpace(s[0]) {
      LStripHead(s[1..]);
    }
  }

  lemma StripStrips(s: string)
    ensures Stripped(Strip(s))
  {
    LStripHead(s);
    RStripKeepsHead(LStrip(s));
  }

  /** The space characters, one by one. */
  const SPACES: set<int> :=
    {9, 10, 11, 12, 13, 28, 29, 30, 31, 32, 133, 160, 5760, 8192, 8193, 8194, 8195, 8196, 8197, 8198, 8199, 8200, 8201, 8202,
     8232, 8233, 8239, 8287, 12288}

  ghost predicate AllSpaces(s: string) {
    forall c :: c in s ==> c as int in SPACES
  }

  lemma SpacesAre(c: char)
    ensures IsSpace(c) <==> c as int in SPACES
  {
  }

  /** Stripping takes away the spaces at both ends, all of them and nothing else. */
  lemma StripIs(s: string) returns (i: nat, j: nat)
    ensures i <= j <= |s| && Strip(s) == s[i..j] && AllSpaces(s[..i]) && AllSpaces(s[j..])
    ensures i < j ==> s[i] as int !in SPACES && s[j - 1] as int !in SPACES
  {
    hide IsSpace;
    i := LStripIs(s);
    j := RStripIs(s[i..]);
    j := i + j;
    assert s[i..][j - i..] == s[j..];
  }

  lemma {:induction false} LStripIs(s: string) returns (i: nat)
    ensures i <= |s| && LStrip(s) == s[i..] && AllSpaces(s[..i]) && (i < |s| ==> s[i] as int !in SPACES)
  {
    hide IsSpace;
    if s == "" {
      i := 0;
    } else {
      SpacesAre(s[0]);
      if IsSpace(s[0]) {
        i := LStripIs(s[1..]);
        i := i + 1;
        assert s[..i] == [s[0]] + s[1..][..i - 1];
      } else {
        i := 0;
      }
    }
  }

  lemma {:induction false} RStripIs(s: string) returns (j: nat)
    ensures j <= |s| && RStrip(s) == s[..j] && AllSpaces(s[j..]) && (j > 0 ==> s[j - 1] as int !in SPACES)
  {
    hide IsSpace;
    if s == "" {
      j := 0;
    } else {
      SpacesAre(s[|s| - 1]);
      if IsSpace(s[|s| - 1]) {
        j := RStripIs(s[..|s| - 1]);
        assert s[j..] == s[..|s| - 1][j..] + [s[|s| - 1]];
      } else {
        j := |s|;
      }
    }
  }

  lemma StrippedIsFixed(s: string)
    requires Stripped(s)
    ensures Strip(s) == s
  {
  }

  /** Stripping is idempotent, and what it leaves has no space at either end. */
  lemma StripTwice(s: string)
    ensures Strip(Strip(s)) == Strip(s)
  {
    StripStrips(s);
    StrippedIsFixed(Strip(s));
  }
}
