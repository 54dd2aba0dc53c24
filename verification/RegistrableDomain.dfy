/** The registrable domain of a host name, under a list of multi-label suffixes. */
module RegistrableDomain {
  import opened Options
  import opened Text

  // ---------------------------------------------------------------------
  // Labels
  // ---------------------------------------------------------------------

  /** `h.split(".")` */
  function Split(h: string): (labels: seq<string>)
    ensures labels != []
  {
    if h == "" then [""]
    else if h[0] == '.' then [""] + Split(h[1..])
    else
      var rest := Split(h[1..]);
      [[h[0]] + rest[0]] + rest[1..]
  }

  /** `".".join(labels)` */
  function Join(labels: seq<string>): string {
    if labels == [] then "" else if |labels| == 1 then labels[0] else labels[0] + "." + Join(labels[1..])
  }

  predicate Dotless(labels: seq<string>) {
    forall i :: 0 <= i < |labels| ==> '.' !in labels[i]
  }

  lemma {:induction false} SplitIsDotless(h: string)
    ensures Dotless(Split(h))
  {
    if h != "" {
      SplitIsDotless(h[1..]);
    }
  }

  lemma {:induction false} JoinSplit(h: string)
    ensures Join(Split(h)) == h
  {
    if h != "" {
      JoinSplit(h[1..]);
      var rest := Split(h[1..]);
      if h[0] == '.' {
        assert Split(h)[1..] == rest;
        assert "" + "." + Join(rest) == "." + h[1..];
      } else {
        assert Split(h)[1..] == rest[1..];
        if |rest| > 1 {
          assert [h[0]] + rest[0] + "." + Join(rest[1..]) == [h[0]] + (rest[0] + "." + Join(rest[1..]));
        }
      }
    }
  }

  lemma {:induction false} SplitLabel(l: string)
    requires '.' !in l
    ensures Split(l) == [l]
  {
    if l != "" {
      assert l[0] in l;
      SplitLabel(l[1..]);
      assert [l[0]] + l[1..] == l;
    }
  }

  lemma {:induction false} SplitPrepend(l: string, rest: string)
    requires '.' !in l
    ensures Split(l + "." + rest) == [l] + Split(rest)
  {
    var s := l + "." + rest;
    if l == "" {
      assert s[0] == '.' && s[1..] == rest;
    } else {
      assert l[0] in l;
      assert s[0] == l[0] && s[1..] == l[1..] + "." + rest;
      SplitPrepend(l[1..], rest);
      assert [l[0]] + l[1..] == l;
    }
  }

  lemma {:induction false} SplitJoin(labels: seq<string>)
    requires labels != [] && Dotless(labels)
    ensures Split(Join(labels)) == labels
  {
    if |labels| == 1 {
      SplitLabel(labels[0]);
    } else {
      SplitJoin(labels[1..]);
      SplitPrepend(labels[0], Join(labels[1..]));
    }
  }

  /** The last labels, joined, are a suffix of all of them joined, and unless they
      are all of them a dot comes before. */
  lemma {:induction false} JoinSuffix(labels: seq<string>, k: nat)
    requires k < |labels|
    ensures |Join(labels[k..])| <= |Join(labels)|
    ensures Join(labels)[|Join(labels)| - |Join(labels[k..])|..] == Join(labels[k..])
    ensures k > 0 ==> |Join(labels[k..])| < |Join(labels)|
    ensures k > 0 ==> Join(labels)[|Join(labels)| - |Join(labels[k..])| - 1] == '.'
  {
    if k > 0 {
      JoinSuffix(labels[1..], k - 1);
      assert labels[1..][k - 1..] == labels[k..];
      assert Join(labels) == labels[0] + "." + Join(labels[1..]);
    } else {
      assert labels[0..] == labels;
    }
  }

  // ---------------------------------------------------------------------
  // The function
  // ---------------------------------------------------------------------

  function LStripDots(s: string): string {
    if s != "" && s[0] == '.' then LStripDots(s[1..]) else s
  }

  function RStripDots(s: string): string {
    if s != "" && s[|s| - 1] == '.' then RStripDots(s[..|s| - 1]) else s
  }

  function Normalised(host: string): string {
    Lower(RStripDots(LStripDots(Strip(host))))
  }

  predicate IsDigits(s: string) {
    s != "" && forall i :: 0 <= i < |s| ==> '0' <= s[i] <= '9'
  }

  predicate NoneEmpty(labels: seq<string>) {
    forall i :: 0 <= i < |labels| ==> labels[i] != ""
  }

  /** A normalised host that is a name of at least two labels, not an address and
      not a URL. */
  predicate IsName(h: string) {
    var labels := Split(h);
    && h != "" && '/' !in h && ':' !in h && |labels| >= 2
    && NoneEmpty(labels)
    && !IsDigits(labels[|labels| - 1])
  }

  function LastLabels(labels: seq<string>, n: nat): (tail: seq<string>)
    requires n <= |labels|
    ensures |tail| == n
  {
    labels[|labels| - n..]
  }

  /** How many labels are kept: one more than the longest listed suffix of three or
      two labels, else two. */
  function Kept(labels: seq<string>, suffixes: set<string>): (n: nat)
    requires |labels| >= 2
    ensures 2 <= n <= 4 && n <= |labels|
  {
    if |labels| > 3 && Join(LastLabels(labels, 3)) in suffixes then 4
    else if |labels| > 2 && Join(LastLabels(labels, 2)) in suffixes then 3
    else 2
  }

  function RegDomain(host: string, suffixes: set<string>): Option<string> {
    var h := Normalised(host);
    if !IsName(h) then None
    else Some(Join(LastLabels(Split(h), Kept(Split(h), suffixes))))
  }

  // ---------------------------------------------------------------------
  // What it promises
  // ---------------------------------------------------------------------

  lemma NameParts(h: string)
    requires IsName(h)
    ensures h != "" && '/' !in h && ':' !in h && |Split(h)| >= 2 && NoneEmpty(Split(h))
    ensures Dotless(Split(h)) && Join(Split(h)) == h
  {
    hide IsDigits, NoneEmpty, Dotless, Split, Join;
    SplitIsDotless(h);
    JoinSplit(h);
  }

  ghost predicate IsNumber(s: string) {
    forall ch :: ch in s ==> ch in "0123456789"
  }

  /** For the labels of the normalised host, whichever way they are found: there is no
      answer exactly when there is only one label, or an empty one, or a slash or a colon,
      or the last label is a number. */
  lemma NoAnswerIff(host: string, suffixes: set<string>, labels: seq<string>)
    requires labels != [] && Dotless(labels) && Join(labels) == Normalised(host)
    ensures RegDomain(host, suffixes).None?
       <==> |labels| < 2 || "" in labels || '/' in Normalised(host) || ':' in Normalised(host) || IsNumber(labels[|labels| - 1])
  {
    hide Normalised, Join, Split, IsNumber, IsDigits, NoneEmpty, Dotless, Kept, LastLabels;
    SplitJoin(labels);
    NumberIs(labels[|labels| - 1]);
    EmptyIs(labels);
    if Normalised(host) == "" { OneLabel(labels); }
  }

  /** Else it is the last two labels, or one more than the longest listed suffix of three
      or two when the host goes on before it. */
  lemma AnswerIs(host: string, suffixes: set<string>, labels: seq<string>)
    requires labels != [] && Dotless(labels) && Join(labels) == Normalised(host)
    requires RegDomain(host, suffixes).Some?
    ensures
      var n := |labels|;
      n >= 2 && RegDomain(host, suffixes).value
        == Join(labels[n - (if n >= 4 && Join(labels[n - 3..]) in suffixes then 4
                            else if n >= 3 && Join(labels[n - 2..]) in suffixes then 3 else 2)..])
  {
    hide Normalised, Join, Split, IsDigits, NoneEmpty, Dotless;
    SplitJoin(labels);
  }

  lemma NumberIs(s: string)
    ensures IsDigits(s) <==> s != "" && IsNumber(s)
  {
    forall i | 0 <= i < |s| ensures s[i] in "0123456789" <==> '0' <= s[i] <= '9' { DigitIs(s[i]); }
    assert forall i :: 0 <= i < |s| ==> s[i] in s;
  }

  lemma DigitIs(ch: char)
    ensures ch in "0123456789" <==> '0' <= ch <= '9'
  {
    var digits := "0123456789";
    if '0' <= ch <= '9' {
      assert digits[ch as int - '0' as int] == ch;
    }
  }

  lemma EmptyIs(labels: seq<string>)
    ensures NoneEmpty(labels) <==> "" !in labels
  {
  }

  lemma OneLabel(labels: seq<string>)
    requires labels != [] && Join(labels) == ""
    ensures |labels| == 1
  {
  }

  ghost predicate AllDots(s: string) {
    forall ch :: ch in s ==> ch == '.'
  }

  /** Normalising takes the spaces off both ends, then the dots, and lowers the rest. */
  lemma NormalisedIs(host: string) returns (i: nat, p: nat, q: nat, j: nat)
    ensures i <= p <= q <= j <= |host| && AllSpaces(host[..i]) && AllSpaces(host[j..])
    ensures i < j ==> host[i] as int !in SPACES && host[j - 1] as int !in SPACES
    ensures AllDots(host[i..p]) && AllDots(host[q..j]) && (p < q ==> host[p] != '.' && host[q - 1] != '.')
    ensures Normalised(host) == Lower(host[p..q])
  {
    hide Strip, SPACES, AllSpaces, AllDots, LStripDots, RStripDots, Lower;
    i, j := StripIs(host);
    var s := host[i..j];
    p := LStripDotsIs(s);
    var r := s[p..];
    q := RStripDotsIs(r);
    assert s[..p] == host[i..i + p];
    assert r == host[i + p..j];
    assert r[q..] == host[i + p + q..j];
    assert r[..q] == host[i + p..i + p + q];
    assert q > 0 ==> host[i + p] == s[p] && host[i + p + q - 1] == r[q - 1];
    p, q := i + p, i + p + q;
  }

  lemma {:induction false} LStripDotsIs(s: string) returns (p: nat)
    ensures p <= |s| && LStripDots(s) == s[p..] && AllDots(s[..p]) && (p < |s| ==> s[p] != '.')
  {
    if s != "" && s[0] == '.' {
      p := LStripDotsIs(s[1..]);
      p := p + 1;
      assert s[..p] == [s[0]] + s[1..][..p - 1];
    } else {
      p := 0;
    }
  }

  lemma {:induction false} RStripDotsIs(s: string) returns (q: nat)
    ensures q <= |s| && RStripDots(s) == s[..q] && AllDots(s[q..]) && (q > 0 ==> s[q - 1] != '.')
  {
    if s != "" && s[|s| - 1] == '.' {
      q := RStripDotsIs(s[..|s| - 1]);
      assert s[q..] == s[..|s| - 1][q..] + [s[|s| - 1]];
    } else {
      q := |s|;
    }
  }

  lemma TailDotless(labels: seq<string>, n: nat)
    requires n <= |labels| && Dotless(labels)
    ensures Dotless(LastLabels(labels, n))
  {
  }

  lemma TailNoneEmpty(labels: seq<string>, n: nat)
    requires n <= |labels| && NoneEmpty(labels)
    ensures NoneEmpty(LastLabels(labels, n))
  {
  }

  /** The labels of the result are the last labels of the host. */
  lemma ResultLabels(host: string, suffixes: set<string>)
    requires RegDomain(host, suffixes).Some?
    ensures
      var labels, d := Split(Normalised(host)), RegDomain(host, suffixes).value;
      && |labels| >= 2 && NoneEmpty(labels) && Dotless(labels) && Join(labels) == Normalised(host)
      && Split(d) == LastLabels(labels, Kept(labels, suffixes))
      && d == Join(LastLabels(labels, Kept(labels, suffixes)))
  {
    hide Normalised, IsName, Split, Join, Kept, Dotless, NoneEmpty, LastLabels;
    var h := Normalised(host);
    NameParts(h);
    TailDotless(Split(h), Kept(Split(h), suffixes));
    SplitJoin(LastLabels(Split(h), Kept(Split(h), suffixes)));
  }

  lemma JoinedTail(labels: seq<string>, n: nat)
    requires 0 < n <= |labels|
    ensures
      var h, d := Join(labels), Join(LastLabels(labels, n));
      |d| <= |h| && h[|h| - |d|..] == d && (|d| < |h| ==> h[|h| - |d| - 1] == '.')
  {
    hide Join;
    JoinSuffix(labels, |labels| - n);
    if n == |labels| {
      assert labels[0..] == labels;
    }
  }

  /** The result is the host's own ending, cut at a dot. */
  lemma ResultIsLabelSuffix(host: string, suffixes: set<string>)
    requires RegDomain(host, suffixes).Some?
    ensures
      var h, d := Normalised(host), RegDomain(host, suffixes).value;
      && |d| <= |h| && h[|h| - |d|..] == d && (|d| < |h| ==> h[|h| - |d| - 1] == '.')
      && 2 <= |Split(d)| <= 4
  {
    hide Normalised, RegDomain, Split, Join, Kept, Dotless, NoneEmpty;
    var labels := Split(Normalised(host));
    ResultLabels(host, suffixes);
    JoinedTail(labels, Kept(labels, suffixes));
  }

  lemma ListedIsWhole(labels: seq<string>, suffixes: set<string>)
    requires |labels| >= 2 && Join(LastLabels(labels, Kept(labels, suffixes))) in suffixes
    requires Kept(labels, suffixes) <= 3
    ensures Kept(labels, suffixes) == |labels|
  {
  }

  /** With a list of suffixes of two or three labels, as the program's is, a listed
      suffix comes out only when it went in: the platform is never taken for the
      part someone registered. */
  lemma NeverAPlatform(host: string, suffixes: set<string>)
    requires forall s :: s in suffixes ==> 2 <= |Split(s)| <= 3
    requires RegDomain(host, suffixes).Some? && RegDomain(host, suffixes).value in suffixes
    ensures RegDomain(host, suffixes).value == Normalised(host)
  {
    hide Normalised, RegDomain, Split, Join, Kept, Dotless, NoneEmpty;
    var labels := Split(Normalised(host));
    ResultLabels(host, suffixes);
    ListedIsWhole(labels, suffixes);
    assert LastLabels(labels, |labels|) == labels;
  }

  lemma {:induction false} LStripDotsFixed(s: string)
    requires s == "" || s[0] != '.'
    ensures LStripDots(s) == s
  {
  }

  lemma {:induction false} RStripDotsFixed(s: string)
    requires s == "" || s[|s| - 1] != '.'
    ensures RStripDots(s) == s
  {
  }

  lemma LowerFixed(s: string)
    requires forall i :: 0 <= i < |s| ==> !('A' <= s[i] <= 'Z')
    ensures Lower(s) == s
  {
  }

  /** A name whose labels are all non-empty neither starts nor ends with a dot. */
  lemma {:induction false} EdgesAreNotDots(labels: seq<string>)
    requires labels != [] && Dotless(labels) && NoneEmpty(labels)
    ensures Join(labels) != "" && Join(labels)[0] != '.' && Join(labels)[|Join(labels)| - 1] != '.'
  {
    assert labels[0][0] in labels[0];
    if |labels| == 1 {
      assert labels[0][|labels[0]| - 1] in labels[0];
    } else {
      EdgesAreNotDots(labels[1..]);
    }
  }

  predicate NoUpper(s: string) {
    forall i :: 0 <= i < |s| ==> !('A' <= s[i] <= 'Z')
  }

  /** Text already in normal form: no space at either end, no dot at either end, no
      capital. */
  lemma NormalIsFixed(s: string)
    requires Stripped(s) && NoUpper(s) && s != "" && s[0] != '.' && s[|s| - 1] != '.'
    ensures Normalised(s) == s
  {
    StrippedIsFixed(s);
    LStripDotsFixed(s);
    RStripDotsFixed(s);
    LowerFixed(s);
  }

  lemma {:induction false} StripShortens(s: string)
    ensures |Strip(s)| <= |s|
    ensures !Stripped(s) ==> |Strip(s)| < |s|
  {
    LStripLength(s);
    RStripKeepsHead(LStrip(s));
    if !Stripped(s) && LStrip(s) == s && RStrip(s) == s {
      LStripHead(s);
    }
  }

  lemma {:induction false} LStripLength(s: string)
    ensures |LStrip(s)| <= |s|
    ensures |LStrip(s)| == |s| ==> LStrip(s) == s
  {
    if s != "" && IsSpace(s[0]) {
      LStripLength(s[1..]);
    }
  }

  lemma {:induction false} StripDotsShortens(s: string)
    ensures |LStripDots(s)| <= |s|
    ensures |RStripDots(s)| <= |s|
    decreases |s|
  {
    if s != "" {
      StripDotsShortens(s[1..]);
      StripDotsShortens(s[..|s| - 1]);
    }
  }

  lemma NormalShortens(s: string)
    ensures |Normalised(s)| <= |Strip(s)|
  {
    StripDotsShortens(Strip(s));
    StripDotsShortens(LStripDots(Strip(s)));
  }

  lemma NormalisedHasNoUpper(host: string)
    ensures NoUpper(Normalised(host))
  {
    hide Strip, LStripDots, RStripDots;
  }

  /** The ending of a name that keeps at least two of its labels is a name. */
  lemma TailIsName(h: string, n: nat)
    requires IsName(h) && 2 <= n <= |Split(h)|
    requires Split(Join(LastLabels(Split(h), n))) == LastLabels(Split(h), n)
    ensures IsName(Join(LastLabels(Split(h), n)))
  {
    hide Split, Join, IsDigits, NoneEmpty, Dotless;
    var labels := Split(h);
    var d := Join(LastLabels(labels, n));
    NameParts(h);
    JoinedTail(labels, n);
    TailNoneEmpty(labels, n);
    TailDotless(labels, n);
    EdgesAreNotDots(LastLabels(labels, n));
    var k := |h| - |d|;
    assert forall i :: 0 <= i < |d| ==> d[i] == h[k + i] && d[i] in h;
  }

  /** The result as text: a name in lower case, without dots at its ends. */
  lemma ResultShape(host: string, suffixes: set<string>)
    requires RegDomain(host, suffixes).Some?
    ensures
      var d := RegDomain(host, suffixes).value;
      IsName(d) && NoUpper(d) && d != "" && d[0] != '.' && d[|d| - 1] != '.'
  {
    hide Normalised, Kept, Split, Join, IsName, NoneEmpty, Dotless, LastLabels;
    var h, d := Normalised(host), RegDomain(host, suffixes).value;
    ResultLabels(host, suffixes);
    TailIsName(h, Kept(Split(h), suffixes));
    NameParts(d);
    EdgesAreNotDots(Split(d));
    ResultIsLabelSuffix(host, suffixes);
    NormalisedHasNoUpper(host);
    assert forall i :: 0 <= i < |d| ==> d[i] == h[|h| - |d| + i];
  }

  /** What was kept once is kept again. */
  lemma KeptAgain(labels: seq<string>, suffixes: set<string>)
    requires |labels| >= 2
    ensures Kept(LastLabels(labels, Kept(labels, suffixes)), suffixes) == Kept(labels, suffixes)
  {
    var n := Kept(labels, suffixes);
    var tail := LastLabels(labels, n);
    assert n > 2 ==> LastLabels(tail, n - 1) == LastLabels(labels, n - 1);
  }

  /** The first label that is kept, and the last. */
  function FirstKept(host: string, suffixes: set<string>): string
    requires |Split(Normalised(host))| >= 2
  {
    var labels := Split(Normalised(host));
    labels[|labels| - Kept(labels, suffixes)]
  }

  function LastKept(host: string): string {
    var labels := Split(Normalised(host));
    labels[|labels| - 1]
  }

  /** Applying the function to its own result changes nothing exactly when, in the host,
      the first kept label does not begin and the last one does not end with a space:
      next to an inner dot, or before a final one, the first call's strip does not
      reach. */
  lemma IdempotentIff(host: string, suffixes: set<string>)
    requires IsName(Normalised(host))
    ensures
      && |Split(Normalised(host))| >= 2 && FirstKept(host, suffixes) != "" && LastKept(host) != ""
      && var d := RegDomain(host, suffixes).value;
         (RegDomain(d, suffixes) == Some(d)
          <==> !IsSpace(FirstKept(host, suffixes)[0]) && !IsSpace(LastKept(host)[|LastKept(host)| - 1]))
  {
    hide Normalised, IsName, Split, Join, Kept, NoneEmpty, Dotless, IsSpace, Strip;
    NameParts(Normalised(host));
    var labels := Split(Normalised(host));
    var n := Kept(labels, suffixes);
    var d := RegDomain(host, suffixes).value;
    ResultLabels(host, suffixes);
    TailNoneEmpty(labels, n);
    JoinEdges(LastLabels(labels, n));
    StrippedResult(host, suffixes);
  }

  /** The ends of a name are the ends of its outer labels. */
  lemma {:induction false} JoinEdges(labels: seq<string>)
    requires labels != [] && NoneEmpty(labels)
    ensures Join(labels) != "" && labels[0] != "" && labels[|labels| - 1] != ""
    ensures Join(labels)[0] == labels[0][0]
    ensures Join(labels)[|Join(labels)| - 1] == labels[|labels| - 1][|labels[|labels| - 1]| - 1]
  {
    if |labels| > 1 {
      var rest := labels[1..];
      assert rest[|rest| - 1] == labels[|labels| - 1];
      JoinEdges(rest);
    }
  }

  lemma StrippedResult(host: string, suffixes: set<string>)
    requires RegDomain(host, suffixes).Some?
    ensures
      var d := RegDomain(host, suffixes).value;
      RegDomain(d, suffixes) == Some(d) <==> Stripped(d)
  {
    var d := RegDomain(host, suffixes).value;
    if Stripped(d) {
      ResultAgain(host, suffixes);
    } else {
      hide RegDomain, Split, Strip, Stripped;
      StripShortens(d);
      NormalShortens(d);
      if RegDomain(d, suffixes).Some? {
        ResultIsLabelSuffix(d, suffixes);
      }
    }
  }

  lemma ResultAgain(host: string, suffixes: set<string>)
    requires RegDomain(host, suffixes).Some? && Stripped(RegDomain(host, suffixes).value)
    ensures RegDomain(RegDomain(host, suffixes).value, suffixes) == RegDomain(host, suffixes)
  {
    hide Normalised, Kept, Split, Join, IsName, NoneEmpty, Dotless, IsSpace;
    var d := RegDomain(host, suffixes).value;
    ResultShape(host, suffixes);
    NormalIsFixed(d);
    ResultLabels(host, suffixes);
    KeptAgain(Split(Normalised(host)), suffixes);
    NameParts(d);
    assert LastLabels(Split(d), |Split(d)|) == Split(d);
  }

  /** A host without spaces inside: idempotent, under every list. */
  lemma IdempotentWithoutSpaces(host: string, suffixes: set<string>)
    requires forall i :: 0 <= i < |Normalised(host)| ==> !IsSpace(Normalised(host)[i])
    requires RegDomain(host, suffixes).Some?
    ensures RegDomain(RegDomain(host, suffixes).value, suffixes) == RegDomain(host, suffixes)
  {
    hide Normalised, RegDomain, Split, IsSpace;
    ResultIsLabelSuffix(host, suffixes);
    var h, d := Normalised(host), RegDomain(host, suffixes).value;
    assert forall i :: 0 <= i < |d| ==> d[i] == h[|h| - |d| + i];
    StrippedResult(host, suffixes);
  }

  /** "a. b.com" gives " b.com", which a second call changes, under every list that does
      not hold that very text. */
  lemma SpacesBreakIdempotence(suffixes: set<string>)
    requires " b.com" !in suffixes
    ensures RegDomain("a. b.com", suffixes) == Some(" b.com") && RegDomain(" b.com", suffixes) != Some(" b.com")
  {
    hide Normalised, Split, Join, LastLabels, IsDigits;
    var h := "a. b.com";
    NormalIsFixed(h);
    ThreeLabels();
    var labels := ["a", " b", "com"];
    TwoLabels();
    assert Kept(labels, suffixes) == 2;
    assert !IsDigits("com") by { LettersAreNoDigits("com"); }
    StrippedResult(h, suffixes);
  }

  lemma ThreeLabels()
    ensures Split("a. b.com") == ["a", " b", "com"]
  {
    hide Split;
    SplitLabel("com");
    SplitPrepend(" b", "com");
    SplitPrepend("a", " b.com");
    assert " b" + "." + "com" == " b.com" && "a" + "." + " b.com" == "a. b.com";
    assert ["a"] + ([" b"] + ["com"]) == ["a", " b", "com"];
  }

  lemma TwoLabels()
    ensures Join(LastLabels(["a", " b", "com"], 2)) == " b.com"
  {
    assert LastLabels(["a", " b", "com"], 2) == [" b", "com"];
    assert [" b", "com"][1..] == ["com"];
    assert " b" + "." + "com" == " b.com";
  }

  lemma LettersAreNoDigits(s: string)
    requires s != "" && s[0] > '9'
    ensures !IsDigits(s)
  {
  }

  /** A further label: it does not begin with a space, and stays one label. */
  predicate IsLabel(l: string) {
    l != "" && '.' !in l && '/' !in l && ':' !in l && !IsSpace(l[0])
  }

  lemma {:induction false} RStripAfter(p: string, x: string)
    requires x != "" && !IsSpace(x[0])
    ensures RStrip(x) != "" && RStrip(x)[0] == x[0] && RStrip(p + x) == p + RStrip(x)
  {
    assert (p + x)[|p + x| - 1] == x[|x| - 1];
    if IsSpace(x[|x| - 1]) {
      assert (p + x)[..|p + x| - 1] == p + x[..|x| - 1];
      RStripAfter(p, x[..|x| - 1]);
    }
  }

  lemma {:induction false} RStripDotsAfter(p: string, x: string)
    requires x != "" && x[0] != '.'
    ensures RStripDots(p + x) == p + RStripDots(x)
  {
    assert (p + x)[|p + x| - 1] == x[|x| - 1];
    if x[|x| - 1] == '.' {
      assert (p + x)[..|p + x| - 1] == p + x[..|x| - 1];
      RStripDotsAfter(p, x[..|x| - 1]);
    }
  }

  /** Normalising works on the label and on the host by themselves. */
  lemma LongerNormal(l: string, host: string)
    requires IsLabel(l) && host != "" && !IsSpace(host[0]) && host[0] != '.'
    ensures Normalised(l + "." + host) == Lower(l) + "." + Normalised(host)
  {
    hide IsSpace, Lower;
    var p := l + ".";
    assert l[0] in l && p[0] == l[0] && (p + host)[0] == l[0];
    RStripAfter(p, host);
    var x := RStrip(host);
    LStripDotsFixed(p + x);
    LStripDotsFixed(x);
    RStripDotsAfter(p, x);
  }

  lemma LowerWithout(l: string, c: char)
    requires c !in l && !('a' <= c <= 'z') && !('A' <= c <= 'Z')
    ensures c !in Lower(l)
  {
  }

  lemma LowerIsLabel(l: string)
    requires IsLabel(l)
    ensures Lower(l) != "" && '.' !in Lower(l) && '/' !in Lower(l) && ':' !in Lower(l)
  {
    hide IsSpace, Lower;
    LowerWithout(l, '.');
    LowerWithout(l, '/');
    LowerWithout(l, ':');
  }

  lemma LongerName(l: string, host: string)
    requires l != "" && '.' !in l && '/' !in l && ':' !in l && IsName(host)
    ensures Split(l + "." + host) == [l] + Split(host) && IsName(l + "." + host)
  {
    hide Split, Join, IsDigits, Dotless, NoneEmpty;
    var labels := Split(host);
    SplitPrepend(l, host);
    NameParts(host);
    OneMoreLabel(l, labels);
    WithoutChar(l, host, '/');
    WithoutChar(l, host, ':');
  }

  lemma OneMoreLabel(l: string, labels: seq<string>)
    requires l != "" && labels != [] && NoneEmpty(labels)
    ensures NoneEmpty([l] + labels) && ([l] + labels)[|labels|] == labels[|labels| - 1]
  {
  }

  lemma WithoutChar(l: string, host: string, c: char)
    requires c !in l && c !in host && c != '.'
    ensures c !in l + "." + host
  {
  }

  lemma LastOfLonger(l: string, labels: seq<string>, n: nat)
    requires n <= |labels|
    ensures LastLabels([l] + labels, n) == LastLabels(labels, n)
  {
  }

  lemma AllLabels(labels: seq<string>)
    ensures LastLabels(labels, |labels|) == labels
  {
  }

  /** `Kept` from the number of labels and what is listed. */
  lemma KeptBy(labels: seq<string>, suffixes: set<string>, listed3: bool, listed2: bool)
    requires |labels| >= 2
    requires |labels| > 3 ==> listed3 == (Join(LastLabels(labels, 3)) in suffixes)
    requires |labels| > 2 ==> listed2 == (Join(LastLabels(labels, 2)) in suffixes)
    ensures Kept(labels, suffixes) == if |labels| > 3 && listed3 then 4 else if |labels| > 2 && listed2 then 3 else 2
  {
  }

  lemma KeptOfLonger(l: string, labels: seq<string>, suffixes: set<string>)
    requires |labels| >= 2
    ensures Kept([l] + labels, suffixes) == Kept(labels, suffixes) <==> !(Join(labels) in suffixes && |labels| <= 3)
  {
    hide LastLabels, Join, Kept;
    var listed2 := Join(LastLabels(labels, 2)) in suffixes;
    var listed3 := |labels| >= 3 && Join(LastLabels(labels, 3)) in suffixes;
    LastOfLonger(l, labels, 2);
    if |labels| >= 3 { LastOfLonger(l, labels, 3); }
    AllLabels(labels);
    KeptBy(labels, suffixes, listed3, listed2);
    KeptBy([l] + labels, suffixes, listed3, listed2);
  }

  /** One more label in front changes nothing, unless the host is itself a listed
      suffix of two or three labels; then it does. Case is free, and the host need not
      be normalised, as long as it begins where its first label does. */
  lemma PrependLabel(l: string, host: string, suffixes: set<string>)
    requires IsLabel(l) && IsName(Normalised(host))
    requires host != "" && !IsSpace(host[0]) && host[0] != '.'
    ensures RegDomain(l + "." + host, suffixes) == RegDomain(host, suffixes)
            <==> !(Normalised(host) in suffixes && |Split(Normalised(host))| <= 3)
  {
    hide Normalised, IsName, Split, Join, Kept, IsSpace, LastLabels, Dotless, NoneEmpty, IsLabel, Lower;
    var k, h := Lower(l), Normalised(host);
    LongerNormal(l, host);
    LowerIsLabel(l);
    LongerName(k, h);
    NameParts(h);
    KeptOfLonger(k, Split(h), suffixes);
    LastOfLonger(k, Split(h), Kept(Split(h), suffixes));
    ResultLabels(host, suffixes);
    ResultLabels(l + "." + host, suffixes);
    assert |Split(RegDomain(l + "." + host, suffixes).value)| == Kept([k] + Split(h), suffixes);
  }
}
