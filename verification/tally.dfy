/** Counting the members of a sequence that are in a given state. */
module Tally {

  function Count<T(==)>(s: seq<T>, p: T): (n: nat)
    ensures n <= |s|
  {
    if s == [] then 0
    else Count(s[..|s| - 1], p) + if s[|s| - 1] == p then 1 else 0
  }

  lemma {:induction false} CountUpdate<T>(s: seq<T>, i: nat, p: T, r: T)
    requires i < |s|
    ensures Count(s[i := r], p) == Count(s, p) - (if s[i] == p then 1 else 0) + (if r == p then 1 else 0)
    decreases |s|
  {
    var n := |s| - 1;
    if i == n {
      assert s[i := r][..n] == s[..n];
    } else {
      assert s[i := r][..n] == s[..n][i := r];
      CountUpdate(s[..n], i, p, r);
    }
  }

  /** One member goes from one state to another. */
  lemma CountMove<T>(s: seq<T>, i: nat, r: T)
    requires i < |s| && s[i] != r
    ensures Count(s[i := r], r) == Count(s, r) + 1
    ensures Count(s[i := r], s[i]) == Count(s, s[i]) - 1
    ensures forall p :: p != r && p != s[i] ==> Count(s[i := r], p) == Count(s, p)
  {
    CountUpdate(s, i, r, r);
    CountUpdate(s, i, s[i], r);
    forall p | p != r && p != s[i] ensures Count(s[i := r], p) == Count(s, p) {
      CountUpdate(s, i, p, r);
    }
  }

  lemma CountAppend<T>(s: seq<T>, p: T, r: T)
    ensures Count(s + [r], p) == Count(s, p) + if r == p then 1 else 0
  {
    assert (s + [r])[..|s|] == s;
  }

  lemma {:induction false} CountPositive<T>(s: seq<T>, p: T)
    ensures Count(s, p) > 0 <==> p in s
    decreases |s|
  {
    if s != [] {
      CountPositive(s[..|s| - 1], p);
    }
  }

  lemma {:induction false} CountAll<T>(s: seq<T>, p: T)
    ensures Count(s, p) == |s| <==> forall i :: 0 <= i < |s| ==> s[i] == p
    decreases |s|
  {
    if s != [] {
      CountAll(s[..|s| - 1], p);
    }
  }

  lemma {:induction false} CountBoth<T>(s: seq<T>, p: T, r: T)
    requires p != r
    ensures Count(s, p) + Count(s, r) <= |s|
    decreases |s|
  {
    if s != [] {
      CountBoth(s[..|s| - 1], p, r);
    }
  }
}
