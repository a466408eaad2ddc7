/** Sequence operations shared by the task store, the rendered list and the pending-change queue. */
module Seqs {

  /** Array.prototype.filter: the elements of s that satisfy keep, in their original order. */
  function Filter<T>(keep: T -> bool, s: seq<T>): seq<T>
  {
    if s == [] then [] else (if keep(s[0]) then [s[0]] else []) + Filter(keep, s[1..])
  }

  /** The number of elements of s that satisfy p. */
  function Count<T>(p: T -> bool, s: seq<T>): nat
  {
    if s == [] then 0 else (if p(s[0]) then 1 else 0) + Count(p, s[1..])
  }

  /** a can be obtained from b by deleting elements, so a keeps b's order. */
  predicate IsSubsequence<T(==)>(a: seq<T>, b: seq<T>)
    decreases |b|
  {
    a == [] || (b != [] && ((a[0] == b[0] && IsSubsequence(a[1..], b[1..])) || IsSubsequence(a, b[1..])))
  }

  lemma {:induction false} SubsequenceLength<T>(a: seq<T>, b: seq<T>)
    requires IsSubsequence(a, b)
    ensures |a| <= |b|
    decreases |b|
  {
    if a != [] {
      if a[0] == b[0] && IsSubsequence(a[1..], b[1..]) {
        SubsequenceLength(a[1..], b[1..]);
      } else {
        SubsequenceLength(a, b[1..]);
      }
    }
  }

  /** Counting a prefix of s past its head counts the head, then the same prefix of the tail. */
  lemma CountPrefixes<T>(p: T -> bool, s: seq<T>)
    requires s != []
    ensures Count(p, s[..0]) == 0
    ensures forall i | 1 <= i <= |s| :: Count(p, s[..i]) == (if p(s[0]) then 1 else 0) + Count(p, s[1..][..i - 1])
  {
    forall i | 1 <= i <= |s|
      ensures Count(p, s[..i]) == (if p(s[0]) then 1 else 0) + Count(p, s[1..][..i - 1])
    {
      assert s[..i][0] == s[0] && s[..i][1..] == s[1..][..i - 1];
    }
  }

  /** Count reaches the length exactly when every element satisfies p. */
  lemma {:induction false} CountAll<T>(p: T -> bool, s: seq<T>)
    ensures Count(p, s) <= |s|
    ensures Count(p, s) == |s| <==> forall i | 0 <= i < |s| :: p(s[i])
  {
    if s != [] {
      CountAll(p, s[1..]);
      assert forall i | 1 <= i < |s| :: s[i] == s[1..][i - 1];
    }
  }

  /** What filter promises: order kept, one element per match, and exactly the matching elements. */
  lemma {:induction false} FilterSpec<T>(keep: T -> bool, s: seq<T>)
    ensures IsSubsequence(Filter(keep, s), s)
    ensures |Filter(keep, s)| == Count(keep, s)
    ensures forall x :: x in Filter(keep, s) <==> x in s && keep(x)
  {
    if s != [] {
      FilterSpec(keep, s[1..]);
      var rest := Filter(keep, s[1..]);
      if keep(s[0]) {
        assert Filter(keep, s) == [s[0]] + rest;
        assert ([s[0]] + rest)[1..] == rest;
      } else {
        assert Filter(keep, s) == rest;
      }
      assert forall x :: x in s <==> x == s[0] || x in s[1..];
    }
  }

  /** Filtering twice by the same predicate is filtering once. */
  lemma {:induction false} FilterIdempotent<T>(keep: T -> bool, s: seq<T>)
    ensures Filter(keep, Filter(keep, s)) == Filter(keep, s)
  {
    if s != [] {
      FilterIdempotent(keep, s[1..]);
      var rest := Filter(keep, s[1..]);
      if keep(s[0]) {
        var r := [s[0]] + rest;
        assert Filter(keep, s) == r;
        assert r[0] == s[0] && r[1..] == rest;
        assert Filter(keep, r) == [s[0]] + Filter(keep, rest);
      } else {
        assert Filter(keep, s) == rest;
      }
    }
  }

  /** Filtering a concatenation filters each part. */
  lemma {:induction false} FilterAppend<T>(keep: T -> bool, a: seq<T>, b: seq<T>)
    ensures Filter(keep, a + b) == Filter(keep, a) + Filter(keep, b)
  {
    if a == [] {
      assert a + b == b;
    } else {
      FilterAppend(keep, a[1..], b);
      assert (a + b)[0] == a[0] && (a + b)[1..] == a[1..] + b;
      var head := if keep(a[0]) then [a[0]] else [];
      calc {
        Filter(keep, a + b);
        head + Filter(keep, a[1..] + b);
        head + (Filter(keep, a[1..]) + Filter(keep, b));
        { AppendAssoc(head, Filter(keep, a[1..]), Filter(keep, b)); }
        (head + Filter(keep, a[1..])) + Filter(keep, b);
      }
    }
  }

  /** When every element is kept, filter returns its input. */
  lemma {:induction false} FilterAllKept<T>(keep: T -> bool, s: seq<T>)
    ensures (forall i | 0 <= i < |s| :: keep(s[i])) ==> Filter(keep, s) == s
  {
    if s != [] && forall i | 0 <= i < |s| :: keep(s[i]) {
      assert forall i | 1 <= i < |s| :: s[i] == s[1..][i - 1];
      FilterAllKept(keep, s[1..]);
      assert [s[0]] + s[1..] == s;
    }
  }

  /** Concatenation is associative. */
  lemma AppendAssoc<T>(a: seq<T>, b: seq<T>, c: seq<T>)
    ensures a + (b + c) == (a + b) + c
  {
  }
}
