/** Order-preserving filtering, sums and flattening of sequences, defined
    element by element from the front, as the summariser's loops walk
    them, with the facts that make their results independent of order. */
module Seqs {

  /** The elements of `s` that satisfy `p`, in their order in `s`. */
  function Filter<T(!new)>(p: T -> bool, s: seq<T>): (r: seq<T>)
    ensures |r| <= |s|
    ensures forall x :: x in r <==> x in s && p(x)
  {
    if s == [] then []
    else Filter(p, s[..|s| - 1]) + (if p(s[|s| - 1]) then [s[|s| - 1]] else [])
  }

  /** Sum of `f` over the elements of `s`. */
  function Sum<T>(f: T -> int, s: seq<T>): int {
    if s == [] then 0 else Sum(f, s[..|s| - 1]) + f(s[|s| - 1])
  }

  /** The concatenation of the sequences in `bs`, in order. */
  function Flatten<T>(bs: seq<seq<T>>): seq<T> {
    if bs == [] then [] else Flatten(bs[..|bs| - 1]) + bs[|bs| - 1]
  }

  lemma {:induction false} FilterConcat<T(!new)>(p: T -> bool, a: seq<T>, b: seq<T>)
    ensures Filter(p, a + b) == Filter(p, a) + Filter(p, b)
  {
    if b == [] {
      assert a + b == a;
    } else {
      assert (a + b)[..|a + b| - 1] == a + b[..|b| - 1];
      assert (a + b)[|a + b| - 1] == b[|b| - 1];
      FilterConcat(p, a, b[..|b| - 1]);
    }
  }

  /** Filtering keeps each element's multiplicity when it satisfies `p`
      and drops it otherwise. */
  lemma {:induction false} FilterCount<T(!new)>(p: T -> bool, s: seq<T>, x: T)
    ensures multiset(Filter(p, s))[x] == if p(x) then multiset(s)[x] else 0
  {
    if s != [] {
      var init := s[..|s| - 1];
      assert s == init + [s[|s| - 1]];
      FilterCount(p, init, x);
    }
  }

  /** Filtering two permutations of each other gives permutations of each other. */
  lemma FilterPermutation<T(!new)>(p: T -> bool, s: seq<T>, t: seq<T>)
    requires multiset(s) == multiset(t)
    ensures multiset(Filter(p, s)) == multiset(Filter(p, t))
  {
    forall x ensures multiset(Filter(p, s))[x] == multiset(Filter(p, t))[x] {
      FilterCount(p, s, x);
      FilterCount(p, t, x);
    }
  }

  /** A filter that keeps everything is the identity. */
  lemma {:induction false} FilterAll<T(!new)>(p: T -> bool, s: seq<T>)
    requires forall x :: x in s ==> p(x)
    ensures Filter(p, s) == s
  {
    if s != [] {
      var init := s[..|s| - 1];
      assert s == init + [s[|s| - 1]];
      FilterAll(p, init);
    }
  }

  /** Filtering with `q` after `p` is filtering with `q` alone when `q` implies `p`. */
  lemma {:induction false} FilterOfFilter<T(!new)>(p: T -> bool, q: T -> bool, s: seq<T>)
    requires forall x :: q(x) ==> p(x)
    ensures Filter(q, Filter(p, s)) == Filter(q, s)
  {
    if s != [] {
      var init, last := s[..|s| - 1], s[|s| - 1];
      FilterOfFilter(p, q, init);
      FilterConcat(q, Filter(p, init), if p(last) then [last] else []);
    }
  }

  lemma {:induction false} SumConcat<T>(f: T -> int, a: seq<T>, b: seq<T>)
    ensures Sum(f, a + b) == Sum(f, a) + Sum(f, b)
  {
    if b == [] {
      assert a + b == a;
    } else {
      assert (a + b)[..|a + b| - 1] == a + b[..|b| - 1];
      assert (a + b)[|a + b| - 1] == b[|b| - 1];
      SumConcat(f, a, b[..|b| - 1]);
    }
  }

  /** A sum does not depend on the order of its terms. */
  lemma {:induction false} SumPermutation<T>(f: T -> int, s: seq<T>, t: seq<T>)
    requires multiset(s) == multiset(t)
    ensures Sum(f, s) == Sum(f, t)
    decreases |s|
  {
    if s == [] {
      assert t == [] by { assert |t| == |multiset(t)|; }
    } else {
      var init, last := s[..|s| - 1], s[|s| - 1];
      assert last in multiset(s);
      var i :| 0 <= i < |t| && t[i] == last;
      var rest := t[..i] + t[i + 1..];
      MultisetRemove(s, |s| - 1);
      MultisetRemove(t, i);
      assert s[..|s| - 1] + s[|s|..] == init;
      SumPermutation(f, init, rest);
      SumRemove(f, t, i);
      SumRemove(f, s, |s| - 1);
    }
  }

  /** Taking one element out of a sequence takes one occurrence of it out
      of its multiset. */
  lemma MultisetRemove<T>(t: seq<T>, i: int)
    requires 0 <= i < |t|
    ensures multiset(t[..i] + t[i + 1..]) == multiset(t) - multiset{t[i]}
  {
    assert t == t[..i] + [t[i]] + t[i + 1..];
  }

  /** Taking one element out of a sequence takes its value out of the sum. */
  lemma SumRemove<T>(f: T -> int, t: seq<T>, i: int)
    requires 0 <= i < |t|
    ensures Sum(f, t) == Sum(f, t[..i] + t[i + 1..]) + f(t[i])
  {
    var before, x, after := t[..i], t[i], t[i + 1..];
    assert t == (before + [x]) + after;
    SumConcat(f, before + [x], after);
    assert Sum(f, before + [x]) == Sum(f, before) + f(x) by {
      assert (before + [x])[..|before + [x]| - 1] == before;
    }
    SumConcat(f, before, after);
  }

  /** An element of the flattening comes from one of the parts, and back. */
  lemma {:induction false} FlattenMember<T>(bs: seq<seq<T>>, x: T)
    ensures x in Flatten(bs) <==> exists k :: 0 <= k < |bs| && x in bs[k]
  {
    if bs != [] {
      var init := bs[..|bs| - 1];
      FlattenMember(init, x);
      if x in Flatten(bs) && x !in bs[|bs| - 1] {
        var k :| 0 <= k < |init| && x in init[k];
        assert bs[k] == init[k];
      }
      if exists k :: 0 <= k < |bs| && x in bs[k] {
        var k :| 0 <= k < |bs| && x in bs[k];
        if k < |init| {
          assert init[k] == bs[k];
        }
      }
    }
  }

  /** Two permutations of each other that agree after position `n` agree
      up to `n` as multisets. */
  lemma PrefixPermutation<T>(s: seq<T>, t: seq<T>, n: int)
    requires 0 <= n <= |s| == |t| && multiset(s) == multiset(t) && s[n..] == t[n..]
    ensures multiset(s[..n]) == multiset(t[..n])
  {
    assert s == s[..n] + s[n..];
    assert t == t[..n] + t[n..];
    assert multiset(s[..n]) == multiset(s) - multiset(s[n..]);
    assert multiset(t[..n]) == multiset(t) - multiset(t[n..]);
  }
}
