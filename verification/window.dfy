/** The sliding window behind both hit counters: a list of hit timestamps from which
    every entry older than a cutoff is dropped, keeping the others in order. */
module Window {

  /** True when the timestamps never go backwards, as with a single sequential clock. */
  ghost predicate NonDecreasing(s: seq<int>)
  {
    forall i, j :: 0 <= i <= j < |s| ==> s[i] <= s[j]
  }

  /** The entries of `hits` that are at or after `cutoff` (the cutoff is inclusive), in
      their original order: the list comprehension that rewrites a hit list in place. */
  function Prune(hits: seq<int>, cutoff: int): (kept: seq<int>)
    ensures |kept| <= |hits|
    ensures forall i :: 0 <= i < |kept| ==> kept[i] >= cutoff
  {
    if |hits| == 0 then []
    else
      var rest := Prune(hits[..|hits| - 1], cutoff);
      if hits[|hits| - 1] >= cutoff then rest + [hits[|hits| - 1]] else rest
  }

  /** Pruning keeps every entry at or after the cutoff, with its multiplicity, and
      nothing else. */
  lemma {:induction false} PruneContents(hits: seq<int>, cutoff: int)
    ensures forall t :: multiset(Prune(hits, cutoff))[t] ==
              (if t >= cutoff then multiset(hits)[t] else 0)
  {
    if |hits| > 0 {
      var init := hits[..|hits| - 1];
      var last := hits[|hits| - 1];
      assert hits == init + [last];
      PruneContents(init, cutoff);
    }
  }

  /** A non-empty log is its prefix followed by its last hit. */
  lemma SplitLast(s: seq<int>)
    requires |s| > 0
    ensures s[..|s| - 1] + [s[|s| - 1]] == s
  {
  }

  /** Appending a hit inside the window extends the pruned list by exactly that hit. */
  lemma PruneAppendRecent(hits: seq<int>, t: int, cutoff: int)
    requires t >= cutoff
    ensures Prune(hits + [t], cutoff) == Prune(hits, cutoff) + [t]
  {
    assert (hits + [t])[..|hits|] == hits;
  }

  /** When no entry has aged out, pruning changes nothing. */
  lemma {:induction false} PruneAllRecent(hits: seq<int>, cutoff: int)
    requires forall i :: 0 <= i < |hits| ==> hits[i] >= cutoff
    ensures Prune(hits, cutoff) == hits
  {
    if |hits| > 0 {
      var init := hits[..|hits| - 1];
      PruneAllRecent(init, cutoff);
      assert hits == init + [hits[|hits| - 1]];
    }
  }

  /** When every entry has aged out, pruning empties the list. */
  lemma {:induction false} PruneAllStale(hits: seq<int>, cutoff: int)
    requires forall i :: 0 <= i < |hits| ==> hits[i] < cutoff
    ensures Prune(hits, cutoff) == []
  {
    if |hits| > 0 {
      PruneAllStale(hits[..|hits| - 1], cutoff);
    }
  }

  /** With a clock that never goes backwards, the window is a suffix of the log:
      pruning drops a prefix of old hits and keeps everything after it. */
  lemma {:induction false} PruneSortedIsSuffix(hits: seq<int>, cutoff: int) returns (k: nat)
    requires NonDecreasing(hits)
    ensures k <= |hits|
    ensures Prune(hits, cutoff) == hits[k..]
    ensures forall i :: 0 <= i < k ==> hits[i] < cutoff
  {
    if |hits| == 0 {
      k := 0;
    } else {
      var init := hits[..|hits| - 1];
      var last := hits[|hits| - 1];
      if last >= cutoff {
        k := PruneSortedIsSuffix(init, cutoff);
        assert hits[k..] == init[k..] + [last];
      } else {
        k := |hits|;
        assert forall i :: 0 <= i < |hits| ==> hits[i] <= last;
        PruneAllStale(hits, cutoff);
      }
    }
  }
}
