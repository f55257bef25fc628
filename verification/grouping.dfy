/** Buckets: consecutive groups of kept elements that share a key, with
    strictly ascending keys from one bucket to the next. This is the shape
    the weekly walk builds, stated for any key so that the facts about it
    do not depend on how the key is computed. */
module Grouping {
  import opened Seqs

  /** A non-empty group of kept elements with one key. */
  ghost predicate IsBucket<T(!new)>(keep: T -> bool, key: T -> int, b: seq<T>) {
    |b| > 0 && forall x :: x in b ==> keep(x) && key(x) == key(b[0])
  }

  /** Buckets whose keys strictly ascend. */
  ghost predicate Ascending<T(!new)>(keep: T -> bool, key: T -> int, bs: seq<seq<T>>) {
    && (forall k :: 0 <= k < |bs| ==> IsBucket(keep, key, bs[k]))
    && (forall k, l :: 0 <= k < l < |bs| ==> key(bs[k][0]) < key(bs[l][0]))
  }

  /** An element with the key of the last bucket may join it. */
  lemma ExtendLast<T(!new)>(keep: T -> bool, key: T -> int, bs: seq<seq<T>>, b: seq<T>, x: T)
    requires Ascending(keep, key, bs + [b])
    requires |b| > 0 && keep(x) && key(x) == key(b[0])
    ensures Ascending(keep, key, bs + [b + [x]])
  {
    var before, after := bs + [b], bs + [b + [x]];
    forall k | 0 <= k < |after| ensures IsBucket(keep, key, after[k]) && after[k][0] == before[k][0] {
      if k < |bs| {
        assert after[k] == before[k];
      } else {
        assert before[k] == b && after[k] == b + [x];
        assert IsBucket(keep, key, b);
      }
    }
  }

  /** A bucket with a key above the last one may follow it. */
  lemma Append<T(!new)>(keep: T -> bool, key: T -> int, bs: seq<seq<T>>, b: seq<T>)
    requires Ascending(keep, key, bs) && IsBucket(keep, key, b)
    requires |bs| > 0 ==> key(bs[|bs| - 1][0]) < key(b[0])
    ensures Ascending(keep, key, bs + [b])
  {
    var after := bs + [b];
    forall k | 0 <= k < |after| ensures IsBucket(keep, key, after[k]) {
      if k < |bs| {
        assert after[k] == bs[k];
      }
    }
    forall k, l | 0 <= k < l < |after| ensures key(after[k][0]) < key(after[l][0]) {
      if l < |bs| {
        assert after[k] == bs[k] && after[l] == bs[l];
      } else if k < |bs| - 1 {
        assert after[k] == bs[k];
        assert key(bs[k][0]) < key(bs[|bs| - 1][0]);
      } else {
        assert after[k] == bs[k];
      }
    }
  }

  lemma AscendingPrefix<T(!new)>(keep: T -> bool, key: T -> int, bs: seq<seq<T>>)
    requires Ascending(keep, key, bs) && |bs| > 0
    ensures Ascending(keep, key, bs[..|bs| - 1])
  {
    var init := bs[..|bs| - 1];
    forall k | 0 <= k < |init| ensures init[k] == bs[k] { }
  }

  /** Selecting one key from a bucket keeps all of it or none of it. */
  lemma SelectFromBucket<T(!new)>(keep: T -> bool, key: T -> int, b: seq<T>, p: T -> bool, w: int)
    requires IsBucket(keep, key, b)
    requires forall x :: p(x) <==> keep(x) && key(x) == w
    ensures Filter(p, b) == if key(b[0]) == w then b else []
  {
    if key(b[0]) == w {
      FilterAll(p, b);
    }
  }

  /** Selecting a key that no bucket has gives nothing. */
  lemma {:induction false} SelectNoBucket<T(!new)>(keep: T -> bool, key: T -> int, bs: seq<seq<T>>, p: T -> bool, w: int)
    requires forall k :: 0 <= k < |bs| ==> IsBucket(keep, key, bs[k]) && key(bs[k][0]) != w
    requires forall x :: p(x) <==> keep(x) && key(x) == w
    ensures Filter(p, Flatten(bs)) == []
  {
    if bs != [] {
      var init, last := bs[..|bs| - 1], bs[|bs| - 1];
      forall k | 0 <= k < |init| ensures IsBucket(keep, key, init[k]) && key(init[k][0]) != w {
        assert init[k] == bs[k];
      }
      SelectNoBucket(keep, key, init, p, w);
      FilterConcat(p, Flatten(init), last);
      SelectFromBucket(keep, key, last, p, w);
    }
  }

  /** Selecting the key of one bucket from the flattened buckets gives
      exactly that bucket. */
  lemma {:induction false} SelectBucket<T(!new)>(keep: T -> bool, key: T -> int, bs: seq<seq<T>>, k: int, p: T -> bool)
    requires Ascending(keep, key, bs) && 0 <= k < |bs|
    requires forall x :: p(x) <==> keep(x) && key(x) == key(bs[k][0])
    ensures Filter(p, Flatten(bs)) == bs[k]
  {
    var w := key(bs[k][0]);
    var init, last := bs[..|bs| - 1], bs[|bs| - 1];
    FilterConcat(p, Flatten(init), last);
    SelectFromBucket(keep, key, last, p, w);
    AscendingPrefix(keep, key, bs);
    if k == |bs| - 1 {
      forall m | 0 <= m < |init| ensures IsBucket(keep, key, init[m]) && key(init[m][0]) != w {
        assert init[m] == bs[m];
      }
      SelectNoBucket(keep, key, init, p, w);
    } else {
      assert init[k] == bs[k];
      SelectBucket(keep, key, init, k, p);
    }
  }

  /** The elements of the buckets carry exactly the buckets' keys. */
  lemma BucketOfMember<T(!new)>(keep: T -> bool, key: T -> int, bs: seq<seq<T>>, x: T)
    requires Ascending(keep, key, bs)
    requires x in Flatten(bs)
    ensures keep(x)
    ensures exists k :: 0 <= k < |bs| && key(bs[k][0]) == key(x)
  {
    FlattenMember(bs, x);
    var k :| 0 <= k < |bs| && x in bs[k];
    assert IsBucket(keep, key, bs[k]);
  }

  /** Some element is kept, and some element has a key below the key of
      every kept element. */
  ghost predicate LeadingSkipped<T(!new)>(keep: T -> bool, key: T -> int, s: seq<T>) {
    && (exists r :: r in s && keep(r))
    && exists x :: x in s && forall r :: r in s && keep(r) ==> key(x) < key(r)
  }

  /** When the first element has the least key, an element with a key below
      every kept one exists exactly when no kept element shares the first key. */
  lemma LeadingSkippedFirst<T(!new)>(keep: T -> bool, key: T -> int, s: seq<T>)
    requires |s| > 0 && forall j :: 0 <= j < |s| ==> key(s[0]) <= key(s[j])
    ensures LeadingSkipped(keep, key, s) <==>
            (exists j :: 0 <= j < |s| && keep(s[j])) &&
            (forall j :: 0 <= j < |s| && keep(s[j]) ==> key(s[j]) != key(s[0]))
  {
    if LeadingSkipped(keep, key, s) {
      var x :| x in s && forall r :: r in s && keep(r) ==> key(x) < key(r);
      forall j | 0 <= j < |s| && keep(s[j]) ensures key(s[j]) != key(s[0]) {
        assert s[j] in s;
      }
    }
    if (exists j :: 0 <= j < |s| && keep(s[j])) &&
       (forall j :: 0 <= j < |s| && keep(s[j]) ==> key(s[j]) != key(s[0])) {
      assert s[0] in s;
      forall r | r in s && keep(r) ensures key(s[0]) < key(r) {
        var j :| 0 <= j < |s| && s[j] == r;
      }
    }
  }

  /** Keys never decrease along `s`. */
  ghost predicate KeysAscend<T>(key: T -> int, s: seq<T>) {
    forall i, j :: 0 <= i <= j < |s| ==> key(s[i]) <= key(s[j])
  }

  lemma KeepPrefix<T(!new)>(keep: T -> bool, s: seq<T>, i: int)
    requires 0 <= i < |s|
    ensures Filter(keep, s[..i + 1]) == Filter(keep, s[..i]) + (if keep(s[i]) then [s[i]] else [])
  {
    assert s[..i + 1][..i] == s[..i];
  }

  lemma SnocAssociates<T>(a: seq<T>, b: seq<T>, x: T)
    ensures (a + b) + [x] == a + (b + [x])
  {
  }

  lemma FlattenSnoc<T>(bs: seq<seq<T>>, b: seq<T>)
    ensures Flatten(bs + [b]) == Flatten(bs) + b
  {
    assert (bs + [b])[..|bs|] == bs;
  }

  /** The state of a walk over `s` that groups the kept elements by key
      after its first `i` elements: `cur` is the key of the open group
      `group`, seeded with `seed`, the key of the first element of any kind;
      `groups` are the groups cut so far. Cutting happens whenever a kept
      element's key differs from `cur`, even while `group` is still empty;
      `emptyCut` says whether that happened, and `body` is `groups` without
      that empty group. */
  ghost predicate Walked<T(!new)>(keep: T -> bool, key: T -> int, s: seq<T>, i: int, seed: int, cur: int,
                                  groups: seq<seq<T>>, body: seq<seq<T>>, group: seq<T>, emptyCut: bool) {
    && 0 <= i <= |s|
    && seed <= cur
    && (forall j :: i <= j < |s| ==> cur <= key(s[j]))
    && groups == (if emptyCut then [[]] else []) + body
    && Flatten(body) + group == Filter(keep, s[..i])
    && (group == [] ==> body == [] && cur == seed && !emptyCut)
    && (group != [] ==> Ascending(keep, key, body + [group]) && key(group[0]) == cur)
    && (emptyCut ==> cur != seed)
    && (emptyCut <==> group != [] && forall j :: 0 <= j < i && keep(s[j]) ==> key(s[j]) != seed)
  }

  lemma WalkStart<T(!new)>(keep: T -> bool, key: T -> int, s: seq<T>)
    requires |s| > 0 && KeysAscend(key, s)
    ensures Walked(keep, key, s, 0, key(s[0]), key(s[0]), [], [], [], false)
  {
  }

  /** An element that is not kept changes nothing. */
  lemma WalkSkip<T(!new)>(keep: T -> bool, key: T -> int, s: seq<T>, i: int, seed: int, cur: int,
                          groups: seq<seq<T>>, body: seq<seq<T>>, group: seq<T>, emptyCut: bool)
    requires Walked(keep, key, s, i, seed, cur, groups, body, group, emptyCut)
    requires i < |s| && !keep(s[i])
    ensures Walked(keep, key, s, i + 1, seed, cur, groups, body, group, emptyCut)
  {
    KeepPrefix(keep, s, i);
  }

  /** A kept element with the current key joins the open group. */
  lemma WalkSameKey<T(!new)>(keep: T -> bool, key: T -> int, s: seq<T>, i: int, seed: int, cur: int,
                             groups: seq<seq<T>>, body: seq<seq<T>>, group: seq<T>, emptyCut: bool)
    requires Walked(keep, key, s, i, seed, cur, groups, body, group, emptyCut)
    requires i < |s| && keep(s[i]) && key(s[i]) == cur
    ensures Walked(keep, key, s, i + 1, seed, cur, groups, body, group + [s[i]], emptyCut)
  {
    KeepPrefix(keep, s, i);
    if group != [] {
      ExtendLast(keep, key, body, group, s[i]);
    }
  }

  /** A kept element with another key cuts the open group and opens a new one. */
  lemma WalkNewKey<T(!new)>(keep: T -> bool, key: T -> int, s: seq<T>, i: int, seed: int, cur: int,
                            groups: seq<seq<T>>, body: seq<seq<T>>, group: seq<T>, emptyCut: bool)
    requires KeysAscend(key, s)
    requires Walked(keep, key, s, i, seed, cur, groups, body, group, emptyCut)
    requires i < |s| && keep(s[i]) && key(s[i]) != cur && group != []
    ensures Walked(keep, key, s, i + 1, seed, key(s[i]), groups + [group], body + [group], [s[i]], emptyCut)
  {
    KeepPrefix(keep, s, i);
    FlattenSnoc(body, group);
    Append(keep, key, body + [group], [s[i]]);
    SnocAssociates(if emptyCut then [[]] else [], body, group);
  }

  /** A kept element with a key other than the seed, before any element was
      kept, cuts the still-empty group. */
  lemma WalkEmptyCut<T(!new)>(keep: T -> bool, key: T -> int, s: seq<T>, i: int, seed: int, cur: int,
                              groups: seq<seq<T>>, body: seq<seq<T>>, group: seq<T>, emptyCut: bool)
    requires KeysAscend(key, s)
    requires Walked(keep, key, s, i, seed, cur, groups, body, group, emptyCut)
    requires i < |s| && keep(s[i]) && key(s[i]) != cur && group == []
    ensures Walked(keep, key, s, i + 1, seed, key(s[i]), groups + [group], body, [s[i]], true)
  {
    KeepPrefix(keep, s, i);
    forall j | 0 <= j < i ensures !keep(s[j]) {
      assert s[j] in s[..i];
    }
  }

  /** At the end of a walk seeded with the first key, the empty group has
      been cut exactly when some element has a key below every kept one. */
  lemma WalkEmptyCutExactly<T(!new)>(keep: T -> bool, key: T -> int, s: seq<T>, cur: int,
                                     groups: seq<seq<T>>, body: seq<seq<T>>, group: seq<T>, emptyCut: bool)
    requires |s| > 0 && KeysAscend(key, s)
    requires Walked(keep, key, s, |s|, key(s[0]), cur, groups, body, group, emptyCut)
    ensures emptyCut <==> LeadingSkipped(keep, key, s)
  {
    assert s[..|s|] == s;
    LeadingSkippedFirst(keep, key, s);
    if group == [] {
      forall j | 0 <= j < |s| ensures !keep(s[j]) {
        assert s[j] in s;
      }
    } else {
      assert group[0] in Filter(keep, s);
    }
  }

  /** At the end of a walk, the groups cut without the empty one, followed
      by the open group, are ascending and hold exactly the kept elements. */
  lemma WalkCollected<T(!new)>(keep: T -> bool, key: T -> int, s: seq<T>, seed: int, cur: int,
                               groups: seq<seq<T>>, body: seq<seq<T>>, group: seq<T>, emptyCut: bool)
    requires Walked(keep, key, s, |s|, seed, cur, groups, body, group, emptyCut)
    ensures var full := if group == [] then body else body + [group];
            Ascending(keep, key, full) && Flatten(full) == Filter(keep, s)
  {
    assert s[..|s|] == s;
    if group != [] {
      FlattenSnoc(body, group);
    }
  }

  /** Flushing the open group: the groups cut, behind the empty group when
      it was cut, followed by the open group unless it is empty. */
  lemma Flush<T(!new)>(keep: T -> bool, key: T -> int, groups: seq<seq<T>>, body: seq<seq<T>>,
                       group: seq<T>, emptyCut: bool, kept: seq<T>)
    requires groups == (if emptyCut then [[]] else []) + body
    requires var full := if group == [] then body else body + [group];
             Ascending(keep, key, full) && Flatten(full) == kept
    ensures var flushed := if group != [] then groups + [group] else groups;
            && (emptyCut ==> |flushed| > 0 && flushed[0] == [] &&
                             Ascending(keep, key, flushed[1..]) && Flatten(flushed[1..]) == kept)
            && (!emptyCut ==> Ascending(keep, key, flushed) && Flatten(flushed) == kept)
  {
    var full := if group == [] then body else body + [group];
    var flushed := if group != [] then groups + [group] else groups;
    if emptyCut {
      if group != [] {
        SnocAssociates([[]], body, group);
      }
      assert flushed == [[]] + full;
      assert flushed[1..] == full;
    } else {
      assert groups == body by {
        assert [] + body == body;
      }
    }
  }

}
