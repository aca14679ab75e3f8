/** Generic sequence combinators standing for the JavaScript array methods the
    state container is built from: `filter` and a numeric `reduce`. */
module Seqs {

  /** `s.filter(p)`: the elements of `s` that satisfy `p`, in their original order. */
  function Filter<T(!new)>(s: seq<T>, p: T -> bool): (r: seq<T>)
    ensures |r| <= |s|
    ensures forall i :: 0 <= i < |r| ==> p(r[i])
    ensures forall x :: x in r <==> x in s && p(x)
  {
    if s == [] then []
    else
      assert s == [s[0]] + s[1..];
      (if p(s[0]) then [s[0]] else []) + Filter(s[1..], p)
  }

  /** Filtering keeps every passing element as many times as it occurs and
      drops every failing one. */
  lemma {:induction false} FilterMultiset<T(!new)>(s: seq<T>, p: T -> bool)
    ensures forall x :: multiset(Filter(s, p))[x] == if p(x) then multiset(s)[x] else 0
  {
    if s != [] {
      assert s == [s[0]] + s[1..];
      FilterMultiset(s[1..], p);
    }
  }

  /** Filtering distributes over concatenation: what is kept keeps its order. */
  lemma {:induction false} FilterConcat<T(!new)>(a: seq<T>, b: seq<T>, p: T -> bool)
    ensures Filter(a + b, p) == Filter(a, p) + Filter(b, p)
  {
    if a == [] {
      assert a + b == b;
    } else {
      assert (a + b)[1..] == a[1..] + b;
      FilterConcat(a[1..], b, p);
    }
  }

  /** When every element passes, filtering changes nothing. */
  lemma {:induction false} FilterAll<T(!new)>(s: seq<T>, p: T -> bool)
    requires forall i :: 0 <= i < |s| ==> p(s[i])
    ensures Filter(s, p) == s
  {
    if s != [] {
      FilterAll(s[1..], p);
    }
  }

  /** When no element passes, filtering leaves nothing. */
  lemma {:induction false} FilterNone<T(!new)>(s: seq<T>, p: T -> bool)
    requires forall i :: 0 <= i < |s| ==> !p(s[i])
    ensures Filter(s, p) == []
  {
    if s != [] {
      FilterNone(s[1..], p);
    }
  }

  /** A sequence is its prefix, the element at k, and its suffix. */
  lemma SplitAt<T>(s: seq<T>, k: int)
    requires 0 <= k < |s|
    ensures s == s[..k] + [s[k]] + s[k + 1..]
  {
  }

  /** Filtering out a rejected element between two runs of accepted ones
      leaves the two runs side by side. */
  lemma FilterDropsMiddle<T(!new)>(pre: seq<T>, x: T, post: seq<T>, p: T -> bool)
    requires forall i :: 0 <= i < |pre| ==> p(pre[i])
    requires !p(x)
    requires forall i :: 0 <= i < |post| ==> p(post[i])
    ensures Filter(pre + [x] + post, p) == pre + post
  {
    FilterConcat(pre + [x], post, p);
    FilterConcat(pre, [x], p);
    assert Filter([x], p) == [] by { assert [x][1..] == []; }
    FilterAll(pre, p);
    FilterAll(post, p);
    assert pre + [] == pre;
  }

  /** Filtering the single element at position k out of a sequence whose other
      elements all pass leaves the sequence with exactly that position cut out. */
  lemma FilterCutsOne<T(!new)>(s: seq<T>, k: int, p: T -> bool)
    requires 0 <= k < |s| && !p(s[k])
    requires forall i :: 0 <= i < |s| && i != k ==> p(s[i])
    ensures Filter(s, p) == s[..k] + s[k + 1..]
  {
    var pre, post := s[..k], s[k + 1..];
    SplitAt(s, k);
    forall i | 0 <= i < |pre| ensures p(pre[i]) {
      assert pre[i] == s[i];
    }
    forall i | 0 <= i < |post| ensures p(post[i]) {
      assert post[i] == s[k + 1 + i];
    }
    FilterDropsMiddle(pre, s[k], post, p);
  }

  /** `s.reduce((acc, x) => acc + f(x), 0)`: a left fold from 0. */
  function SumOf<T>(s: seq<T>, f: T -> int): int
  {
    if s == [] then 0 else SumOf(s[..|s| - 1], f) + f(s[|s| - 1])
  }

  /** The fold is a homomorphism from concatenation to addition. */
  lemma {:induction false} SumOfConcat<T>(a: seq<T>, b: seq<T>, f: T -> int)
    ensures SumOf(a + b, f) == SumOf(a, f) + SumOf(b, f)
  {
    if b == [] {
      assert a + b == a;
    } else {
      assert (a + b)[..|a + b| - 1] == a + b[..|b| - 1];
      SumOfConcat(a, b[..|b| - 1], f);
    }
  }

  /** The sum of a sequence split around one element. */
  lemma SumOfAround<T>(pre: seq<T>, x: T, post: seq<T>, f: T -> int)
    ensures SumOf(pre + [x] + post, f) == SumOf(pre, f) + f(x) + SumOf(post, f)
  {
    SumOfConcat(pre + [x], post, f);
    SumOfConcat(pre, [x], f);
    assert SumOf([x], f) == f(x) by { assert [x][..0] == []; }
  }

  /** Replacing one element changes the sum by exactly the difference of the two terms. */
  lemma SumOfUpdate<T>(s: seq<T>, k: int, x: T, f: T -> int)
    requires 0 <= k < |s|
    ensures SumOf(s[k := x], f) == SumOf(s, f) - f(s[k]) + f(x)
  {
    var pre, post := s[..k], s[k + 1..];
    assert SumOf(s, f) == SumOf(pre, f) + f(s[k]) + SumOf(post, f) by {
      SplitAt(s, k);
      SumOfAround(pre, s[k], post, f);
    }
    assert SumOf(s[k := x], f) == SumOf(pre, f) + f(x) + SumOf(post, f) by {
      assert s[k := x] == pre + [x] + post;
      SumOfAround(pre, x, post, f);
    }
  }

  /** Cutting one element out of the sequence removes exactly its term from the sum. */
  lemma SumOfCut<T>(s: seq<T>, k: int, f: T -> int)
    requires 0 <= k < |s|
    ensures SumOf(s[..k] + s[k + 1..], f) == SumOf(s, f) - f(s[k])
  {
    var pre, post := s[..k], s[k + 1..];
    assert SumOf(s, f) == SumOf(pre, f) + f(s[k]) + SumOf(post, f) by {
      SplitAt(s, k);
      SumOfAround(pre, s[k], post, f);
    }
    SumOfConcat(pre, post, f);
  }

  /** A sum of terms that are each at least `lo` is at least `lo` times the length. */
  lemma {:induction false} SumOfLowerBound<T>(s: seq<T>, f: T -> int, lo: int)
    requires forall i :: 0 <= i < |s| ==> f(s[i]) >= lo
    ensures SumOf(s, f) >= lo * |s|
  {
    if s != [] {
      SumOfLowerBound(s[..|s| - 1], f, lo);
    }
  }
}
