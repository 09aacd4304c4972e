/** Optional values: `null`/`undefined` on the TypeScript side. */
module Wrappers {
  datatype Option<+T> = None | Some(value: T)
}

/**
 * JavaScript's `Array.prototype.filter`, written once and shared by every list
 * the dashboard narrows down (custom roles, documents, emails, users), with the
 * facts that characterise it: the result is an order-preserving subsequence of
 * the input that keeps every copy of every accepted element and nothing else.
 */
module Seqs {

  /** `s.filter(p)`: the elements of `s` that satisfy `p`, in their original order. */
  function Filter<T>(s: seq<T>, p: T -> bool): (r: seq<T>)
    ensures |r| <= |s|
    ensures forall x :: x in r ==> x in s && p(x)
  {
    if s == [] then [] else (if p(s[0]) then [s[0]] else []) + Filter(s[1..], p)
  }

  /** `r` can be obtained from `s` by deleting elements, without reordering the rest. */
  predicate IsSubsequence<T(==)>(r: seq<T>, s: seq<T>)
    decreases |s|
  {
    if r == [] then true
    else if s == [] then false
    else (r[0] == s[0] && IsSubsequence(r[1..], s[1..])) || IsSubsequence(r, s[1..])
  }

  /** The multiplicity of each element in a filter's result: all of its copies when accepted, none otherwise. */
  ghost predicate KeepsExactly<T(!new)>(r: seq<T>, s: seq<T>, p: T -> bool)
  {
    forall x :: multiset(r)[x] == if p(x) then multiset(s)[x] else 0
  }

  lemma {:induction false} SubsequenceLength<T>(r: seq<T>, s: seq<T>)
    requires IsSubsequence(r, s)
    ensures |r| <= |s|
    decreases |s|
  {
    if r != [] {
      if r[0] == s[0] && IsSubsequence(r[1..], s[1..]) {
        SubsequenceLength(r[1..], s[1..]);
      } else {
        SubsequenceLength(r, s[1..]);
      }
    }
  }

  /** Deleting elements is transitive: a subsequence of a subsequence is a subsequence. */
  lemma {:induction false} SubsequenceTransitive<T>(a: seq<T>, b: seq<T>, c: seq<T>)
    requires IsSubsequence(a, b) && IsSubsequence(b, c)
    ensures IsSubsequence(a, c)
    decreases |c|
  {
    if a != [] {
      assert b != [] && c != [];
      if b[0] == c[0] && IsSubsequence(b[1..], c[1..]) {
        if a[0] == b[0] && IsSubsequence(a[1..], b[1..]) {
          SubsequenceTransitive(a[1..], b[1..], c[1..]);
        } else {
          SubsequenceTransitive(a, b[1..], c[1..]);
        }
      } else {
        SubsequenceTransitive(a, b, c[1..]);
      }
    }
  }

  /** A subsequence as long as the whole sequence is the whole sequence. */
  lemma {:induction false} SubsequenceSameLength<T>(r: seq<T>, s: seq<T>)
    requires IsSubsequence(r, s) && |r| == |s|
    ensures r == s
    decreases |s|
  {
    if r != [] {
      if !(r[0] == s[0] && IsSubsequence(r[1..], s[1..])) {
        SubsequenceLength(r, s[1..]);
        assert false;
      }
      SubsequenceSameLength(r[1..], s[1..]);
      assert r == [r[0]] + r[1..] && s == [s[0]] + s[1..];
    }
  }

  /** A subsequence with the same elements, counted with multiplicity, is the whole sequence. */
  lemma SubsequenceFull<T>(r: seq<T>, s: seq<T>)
    requires IsSubsequence(r, s)
    requires multiset(r) == multiset(s)
    ensures r == s
  {
    assert |r| == |multiset(r)| == |multiset(s)| == |s|;
    SubsequenceSameLength(r, s);
  }

  lemma {:induction false} FilterIsSubsequence<T>(s: seq<T>, p: T -> bool)
    ensures IsSubsequence(Filter(s, p), s)
    decreases |s|
  {
    if s != [] {
      FilterIsSubsequence(s[1..], p);
      if p(s[0]) {
        assert Filter(s, p) == [s[0]] + Filter(s[1..], p);
        assert Filter(s, p)[1..] == Filter(s[1..], p);
      } else {
        assert Filter(s, p) == Filter(s[1..], p);
      }
    }
  }

  lemma {:induction false} FilterKeepsExactly<T(!new)>(s: seq<T>, p: T -> bool)
    ensures KeepsExactly(Filter(s, p), s, p)
    decreases |s|
  {
    if s != [] {
      FilterKeepsExactly(s[1..], p);
      assert s == [s[0]] + s[1..];
      assert multiset(s) == multiset([s[0]]) + multiset(s[1..]);
      var head := if p(s[0]) then [s[0]] else [];
      assert Filter(s, p) == head + Filter(s[1..], p);
      assert multiset(Filter(s, p)) == multiset(head) + multiset(Filter(s[1..], p));
    }
  }

  /**
   * The two facts above determine the filter: any subsequence of `s` that keeps
   * exactly the accepted elements, with their multiplicity, IS `s.filter(p)`.
   */
  lemma {:induction false} FilterUnique<T(!new)>(r: seq<T>, s: seq<T>, p: T -> bool)
    requires IsSubsequence(r, s)
    requires KeepsExactly(r, s, p)
    ensures r == Filter(s, p)
    decreases |s|
  {
    if s == [] {
      assert r == [];
    } else {
      var x := s[0];
      assert s == [x] + s[1..];
      assert multiset(s) == multiset([x]) + multiset(s[1..]);
      if p(x) {
        assert multiset(r)[x] == multiset(s)[x] == multiset(s[1..])[x] + 1;
        if !(r[0] == x && IsSubsequence(r[1..], s[1..])) {
          // then r is a subsequence of s[1..], which holds one copy of x fewer
          assert IsSubsequence(r, s[1..]);
          SubsequenceCount(r, s[1..], x);
          assert false;
        }
        assert r == [x] + r[1..];
        assert multiset(r) == multiset([x]) + multiset(r[1..]);
        assert KeepsExactly(r[1..], s[1..], p);
        FilterUnique(r[1..], s[1..], p);
      } else {
        assert x !in r;
        assert r != [] ==> r[0] != x;
        assert IsSubsequence(r, s[1..]);
        FilterUnique(r, s[1..], p);
      }
    }
  }

  /** A subsequence never holds more copies of an element than the sequence it was taken from. */
  lemma {:induction false} SubsequenceCount<T>(r: seq<T>, s: seq<T>, x: T)
    requires IsSubsequence(r, s)
    ensures multiset(r)[x] <= multiset(s)[x]
    decreases |s|
  {
    if r != [] {
      assert s == [s[0]] + s[1..];
      assert multiset(s) == multiset([s[0]]) + multiset(s[1..]);
      if r[0] == s[0] && IsSubsequence(r[1..], s[1..]) {
        SubsequenceCount(r[1..], s[1..], x);
        assert r == [r[0]] + r[1..];
        assert multiset(r) == multiset([r[0]]) + multiset(r[1..]);
      } else {
        SubsequenceCount(r, s[1..], x);
      }
    }
  }

  /** Filtering with two predicates that never hold together keeps at most |s| elements between them. */
  lemma {:induction false} FilterDisjointLength<T>(s: seq<T>, p: T -> bool, q: T -> bool)
    requires forall x :: !(p(x) && q(x))
    ensures |Filter(s, p)| + |Filter(s, q)| <= |s|
    decreases |s|
  {
    if s != [] {
      FilterDisjointLength(s[1..], p, q);
    }
  }
}
