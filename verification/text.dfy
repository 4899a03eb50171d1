/** Plain string facts used by the recolouring scanners: prefixes,
    occurrences of a literal, and agreement of two strings on their common
    length. Strings are `seq<char>`; matching is exact and case-sensitive. */
module Text {

  /** `p` occurs in `s` starting at index `k`. */
  predicate OccursAt(p: string, s: string, k: int)
  {
    0 <= k && k + |p| <= |s| && s[k..k + |p|] == p
  }

  /** `p` occurs somewhere in `s`. */
  predicate Occurs(p: string, s: string)
  {
    exists k :: 0 <= k <= |s| && OccursAt(p, s, k)
  }

  /** `p` occurs nowhere in `s` at or after index `i`. */
  predicate AbsentFrom(p: string, s: string, i: nat)
  {
    forall k :: i <= k <= |s| ==> !OccursAt(p, s, k)
  }

  /** `a` read from index `i` and `b` read from index `j` coincide on every
      index both of them have: a copy of `b` could start at `a[i]` with no
      visible mismatch. */
  predicate AgreeAt(a: string, i: nat, b: string, j: nat)
    decreases |a| - i
  {
    i >= |a| || j >= |b| || (a[i] == b[j] && AgreeAt(a, i + 1, b, j + 1))
  }

  /** No copy of `b` can start at or after index `i` of `a`. */
  predicate NoneAgreeFrom(a: string, i: nat, b: string)
    decreases |a| - i
  {
    i >= |a| || (!AgreeAt(a, i, b, 0) && NoneAgreeFrom(a, i + 1, b))
  }

  /** A replacement `q` and a literal `p` can never overlap without a
      mismatch: `p` cannot begin inside `q`, and `q` cannot begin strictly
      inside `p`. */
  predicate Separated(q: string, p: string)
  {
    |p| > 0 && NoneAgreeFrom(q, 0, p) && NoneAgreeFrom(p, 1, q)
  }

  lemma {:induction false} AgreeAtOfEqual(a: string, i: nat, b: string, j: nat)
    requires forall k :: i <= k < |a| && j + k - i < |b| ==> a[k] == b[j + k - i]
    ensures AgreeAt(a, i, b, j)
    decreases |a| - i
  {
    if i < |a| && j < |b| {
      assert a[i] == b[j + i - i];
      AgreeAtOfEqual(a, i + 1, b, j + 1);
    }
  }

  lemma {:induction false} NoneAgreeFromAt(a: string, i: nat, b: string, k: nat)
    requires NoneAgreeFrom(a, i, b)
    requires i <= k < |a|
    ensures !AgreeAt(a, k, b, 0)
    decreases k - i
  {
    if k > i {
      NoneAgreeFromAt(a, i + 1, b, k);
    }
  }
}
