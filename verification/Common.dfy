/** What several modules share. */
module Common {
  datatype Option<+T> = None | Some(value: T)

  /** No element occurs twice. */
  predicate NoDup<T(==)>(s: seq<T>) {
    forall i, j :: 0 <= i < j < |s| ==> s[i] != s[j]
  }

  lemma SubsetCard<T>(a: set<T>, b: set<T>)
    requires a <= b
    ensures |a| <= |b|
  {
    assert b == a + (b - a);
  }

  /** How many numbers lie in [a, b). */
  lemma {:induction false} IntervalCard(s: set<nat>, a: nat, b: nat)
    requires a <= b && forall k: nat :: k in s <==> a <= k < b
    ensures |s| == b - a
    decreases b - a
  {
    if a < b {
      IntervalCard(s - {a}, a + 1, b);
    } else {
      assert s == {};
    }
  }

  /** Two adjoining slices are one. */
  lemma Slices<T>(s: seq<T>, a: nat, b: nat, c: nat)
    requires a <= b <= c <= |s|
    ensures s[a..c] == s[a..b] + s[b..c]
  {
  }
}
