/** Sequence helpers shared by the list screens: Swift's `filter` and the
    order-preserving-sublist relation it establishes.
 */
module Seqs {
  import opened Wrappers

  /** `s.filter(keep)`. */
  function Filter<T(!new)>(s: seq<T>, keep: T -> bool): (r: seq<T>)
    ensures |r| <= |s|
    ensures forall x :: x in r <==> x in s && keep(x)
    decreases |s|
  {
    if |s| == 0 then []
    else if keep(s[0]) then [s[0]] + Filter(s[1..], keep)
    else Filter(s[1..], keep)
  }

  /** `s.firstIndex(where: matches)`: the first matching position, with no match before it;
      none exactly when nothing matches. */
  function FirstIndexWhere<T>(s: seq<T>, matches: T -> bool): (r: Option<nat>)
    ensures r.Some? ==> r.value < |s| && matches(s[r.value])
    ensures r.Some? ==> forall k :: 0 <= k < r.value ==> !matches(s[k])
    ensures r.None? ==> forall k :: 0 <= k < |s| ==> !matches(s[k])
    decreases |s|
  {
    if |s| == 0 then None
    else if matches(s[0]) then Some(0)
    else match FirstIndexWhere(s[1..], matches)
      case None => None
      case Some(k) => Some(k + 1)
  }

  /** `a` is `b` with some elements deleted, the rest kept in order. */
  predicate Sublist<T(==)>(a: seq<T>, b: seq<T>)
    decreases |b|
  {
    if |a| == 0 then true
    else if |b| == 0 then false
    else if a[0] == b[0] then Sublist(a[1..], b[1..])
    else Sublist(a, b[1..])
  }

  lemma {:induction false} FilterIsSublist<T(!new)>(s: seq<T>, keep: T -> bool)
    ensures Sublist(Filter(s, keep), s)
    decreases |s|
  {
    if |s| > 0 {
      FilterIsSublist(s[1..], keep);
      if keep(s[0]) {
        assert Filter(s, keep)[1..] == Filter(s[1..], keep);
      }
    }
  }

  /** Filtering keeps everything exactly when every element passes. */
  lemma {:induction false} FilterKeepsAll<T(!new)>(s: seq<T>, keep: T -> bool)
    ensures (forall i :: 0 <= i < |s| ==> keep(s[i])) <==> Filter(s, keep) == s
    decreases |s|
  {
    if |s| > 0 {
      FilterKeepsAll(s[1..], keep);
      if forall i :: 0 <= i < |s| ==> keep(s[i]) {
        assert forall i :: 0 <= i < |s[1..]| ==> keep(s[1..][i]) by {
          forall i | 0 <= i < |s[1..]| ensures keep(s[1..][i]) { assert s[1..][i] == s[i + 1]; }
        }
        assert [s[0]] + s[1..] == s;
      } else {
        var i :| 0 <= i < |s| && !keep(s[i]);
        assert s[i] in s;
        assert s[i] !in Filter(s, keep);
      }
    }
  }

  /** Filtering distributes over concatenation. */
  lemma {:induction false} FilterAppend<T(!new)>(a: seq<T>, b: seq<T>, keep: T -> bool)
    ensures Filter(a + b, keep) == Filter(a, keep) + Filter(b, keep)
    decreases |a|
  {
    if |a| == 0 {
      assert a + b == b;
    } else {
      assert (a + b)[0] == a[0];
      assert (a + b)[1..] == a[1..] + b;
      FilterAppend(a[1..], b, keep);
    }
  }

  lemma {:induction false} SublistRefl<T>(s: seq<T>)
    ensures Sublist(s, s)
    decreases |s|
  {
    if |s| > 0 { SublistRefl(s[1..]); }
  }

  /** Every element of a sublist is an element of the whole. */
  lemma {:induction false} SublistElements<T>(a: seq<T>, b: seq<T>)
    requires Sublist(a, b)
    ensures forall x :: x in a ==> x in b
    decreases |b|
  {
    if |a| > 0 {
      if a[0] == b[0] {
        SublistElements(a[1..], b[1..]);
        assert forall x :: x in a ==> x == a[0] || x in a[1..];
      } else {
        SublistElements(a, b[1..]);
      }
    }
  }

  /** A sublist of the tail of `b` is a sublist of `b`. */
  lemma {:induction false} SublistDropFront<T>(a: seq<T>, b: seq<T>)
    requires |b| > 0 && Sublist(a, b[1..])
    ensures Sublist(a, b)
    decreases |a| + |b|
  {
    if |a| > 0 && a[0] == b[0] {
      SublistTail(a, b[1..]);
    }
  }

  /** Dropping the head of a non-empty sublist keeps it a sublist. */
  lemma {:induction false} SublistTail<T>(a: seq<T>, b: seq<T>)
    requires |a| > 0 && Sublist(a, b)
    ensures Sublist(a[1..], b)
    decreases |a| + |b|
  {
    if a[0] == b[0] {
      SublistDropFront(a[1..], b);
    } else {
      SublistTail(a, b[1..]);
      SublistDropFront(a[1..], b);
    }
  }

  /** No two elements of `s` share a key. */
  predicate DistinctBy<T, K(==)>(s: seq<T>, key: T -> K)
  {
    forall i, j :: 0 <= i < j < |s| ==> key(s[i]) != key(s[j])
  }
}
