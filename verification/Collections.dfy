/** Sequences as sets, and smaller and larger numbers. */
module Collections {

  function Min(a: int, b: int): int { if a < b then a else b }

  function Max(a: int, b: int): int { if a > b then a else b }

  function ToSet<T(==)>(s: seq<T>): set<T> {
    set x | x in s
  }

  lemma OneMore<T>(a: set<T>, b: set<T>, n: T, more: bool)
    requires n !in a && forall i :: i in b <==> i in a || (more && i == n)
    ensures |b| == |a| + if more then 1 else 0
  {
    if more {
      assert b == a + {n};
    } else {
      assert b == a;
    }
  }

  ghost predicate Ascending(s: seq<nat>) {
    forall i, j :: 0 <= i < j < |s| ==> s[i] < s[j]
  }

  /** One more position, at the end. */
  lemma AscendingSnoc(s: seq<nat>, n: nat)
    requires Ascending(s) && forall j :: 0 <= j < |s| ==> s[j] < n
    ensures Ascending(s + [n]) && forall k: nat :: k in s + [n] <==> k in s || k == n
  {
    assert (s + [n])[|s|] == n;
  }

  ghost predicate Distinct<T>(s: seq<T>) {
    forall i, j :: 0 <= i < j < |s| ==> s[i] != s[j]
  }

  lemma {:induction false} DistinctCount<T>(s: seq<T>)
    requires Distinct(s)
    ensures |ToSet(s)| == |s|
  {
    if s != [] {
      var init, last := s[..|s| - 1], s[|s| - 1];
      DistinctCount(init);
      assert forall k :: 0 <= k < |init| ==> init[k] == s[k] && init[k] != last;
      assert s == init + [last];
      assert ToSet(s) == ToSet(init) + {last};
    }
  }
}
