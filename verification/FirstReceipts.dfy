/** What a consumer keeps of an at-least-once stream: the first receipt of each
    item, in the order of those first receipts. */
module FirstReceipts {

  function Dedup<T(==,!new)>(log: seq<T>): (kept: seq<T>)
    ensures forall x :: x in kept <==> x in log
    ensures forall i, j :: 0 <= i < j < |kept| ==> kept[i] != kept[j]
  {
    if log == [] then []
    else
      var kept, x := Dedup(log[..|log| - 1]), log[|log| - 1];
      if x in kept then kept else kept + [x]
  }

  lemma DedupAppend<T(!new)>(log: seq<T>, x: T)
    ensures Dedup(log + [x]) == if x in log then Dedup(log) else Dedup(log) + [x]
  {
    assert (log + [x])[..|log|] == log;
  }

  lemma InPrefix<T>(kept: seq<T>, master: seq<T>, i: nat)
    requires kept <= master && i < |kept|
    ensures master[i] in kept
  {
    assert kept[i] in kept;
  }

  /** A log that keeps the first n items of a duplicate-free master list, and then
      receives one of the first n + 1, again keeps a prefix of the list, no
      shorter and reaching at least that item. */
  lemma ReceiveInOrder<T(!new)>(master: seq<T>, log: seq<T>, i: nat)
    requires forall a, b :: 0 <= a < b < |master| ==> master[a] != master[b]
    requires i < |master|
    requires Dedup(log) <= master && i <= |Dedup(log)|
    ensures Dedup(log + [master[i]]) <= master
    ensures |Dedup(log + [master[i]])| == if i < |Dedup(log)| then |Dedup(log)| else i + 1
  {
    hide Dedup;
    var kept := Dedup(log);
    DedupAppend(log, master[i]);
    if i < |kept| {
      InPrefix(kept, master, i);
    } else {
      assert kept + [master[|kept|]] <= master;
    }
  }

  /** The same for a stretch of the list received in one go. */
  lemma {:induction false} ReceiveStretch<T(!new)>(master: seq<T>, log: seq<T>, i: nat, j: nat)
    requires forall a, b :: 0 <= a < b < |master| ==> master[a] != master[b]
    requires i <= j <= |master|
    requires Dedup(log) <= master && i <= |Dedup(log)|
    ensures Dedup(log + master[i..j]) <= master
    ensures |Dedup(log + master[i..j])| == if j <= |Dedup(log)| then |Dedup(log)| else j
    decreases j
  {
    hide Dedup;
    if i == j {
      assert log + master[i..j] == log;
    } else {
      ReceiveStretch(master, log, i, j - 1);
      ReceiveInOrder(master, log + master[i..j - 1], j - 1);
      assert log + master[i..j - 1] + [master[j - 1]] == log + master[i..j];
    }
  }

  /** Items received in order, each exactly once, are kept as they come. */
  lemma {:induction false} DedupFixed<T(!new)>(log: seq<T>)
    requires forall a, b :: 0 <= a < b < |log| ==> log[a] != log[b]
    ensures Dedup(log) == log
  {
    if log != [] {
      DedupFixed(log[..|log| - 1]);
    }
  }
}
