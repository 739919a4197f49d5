/** The pigeonhole principle. */
module Counting {
  /** There are no more than n different numbers below n. */
  lemma {:induction false} Pigeonhole(s: seq<nat>, n: nat)
    requires forall k {:trigger s[k]} :: 0 <= k < |s| ==> s[k] < n
    requires forall j, k {:trigger s[j], s[k]} :: 0 <= j < k < |s| ==> s[j] != s[k]
    ensures |s| <= n
  {
    Distinct(s);
    Bounded(set k | 0 <= k < |s| :: s[k], n);
  }

  lemma {:induction false} Bounded(a: set<nat>, n: nat)
    requires forall x :: x in a ==> x < n
    ensures |a| <= n
  {
    if n > 0 {
      Bounded(a - {n - 1}, n - 1);
    } else {
      assert a == {};
    }
  }

  lemma {:induction false} Distinct(s: seq<nat>)
    requires forall j, k {:trigger s[j], s[k]} :: 0 <= j < k < |s| ==> s[j] != s[k]
    ensures |set k | 0 <= k < |s| :: s[k]| == |s|
  {
    if |s| > 0 {
      var t := s[..|s| - 1];
      Distinct(t);
      var seen, last := (set k | 0 <= k < |t| :: t[k]), s[|s| - 1];
      assert last !in seen;
      assert (set k | 0 <= k < |s| :: s[k]) == seen + {last} by {
        assert forall k :: 0 <= k < |t| ==> t[k] == s[k];
      }
    }
  }
}
