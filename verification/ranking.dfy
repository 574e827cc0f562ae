/** Ranking of detections by score.

    A single-face task sorts the detections with the comparator
    `(f1, f2) => f1.score - f2.score` and takes element 0. JavaScript's
    `Array.prototype.sort` is stable, and a stable ascending sort has exactly
    one possible output; `SortByScore` is an insertion sort proved sorted,
    a permutation and stable, so it is that output. Scores are real numbers
    with a total order (no NaN).
 */
module Ranking {
  import opened Results
  import opened Faces

  /** `s` is in ascending order of score. */
  ghost predicate SortedByScore(s: seq<Detection>) {
    forall i, j :: 0 <= i < j < |s| ==> s[i].score <= s[j].score
  }

  /** The detections of `s` with score `v`, in their order in `s`. */
  function WithScore(s: seq<Detection>, v: real): (r: seq<Detection>)
    ensures |r| <= |s|
  {
    if |s| == 0 then []
    else if s[0].score == v then [s[0]] + WithScore(s[1..], v)
    else WithScore(s[1..], v)
  }

  /** Places `d` in front of the first element of `s` whose score is not
      below its own, so `d` stays ahead of elements with an equal score. */
  function Insert(d: Detection, s: seq<Detection>): (r: seq<Detection>)
    requires SortedByScore(s)
    ensures SortedByScore(r)
    ensures multiset(r) == multiset(s) + multiset{d}
    ensures |r| == |s| + 1
  {
    if |s| == 0 || d.score <= s[0].score then [d] + s
    else
      var rest := Insert(d, s[1..]);
      assert s == [s[0]] + s[1..];
      assert forall k :: 0 <= k < |rest| ==> rest[k] in multiset(s[1..]) + multiset{d};
      [s[0]] + rest
  }

  /** The detections in ascending order of score; among equal scores, in
      their original order. */
  function SortByScore(ds: seq<Detection>): (r: seq<Detection>)
    ensures SortedByScore(r)
    ensures multiset(r) == multiset(ds)
    ensures |r| == |ds|
  {
    if |ds| == 0 then []
    else
      assert ds == [ds[0]] + ds[1..];
      Insert(ds[0], SortByScore(ds[1..]))
  }

  /** Element 0 of the ascending sort, or `None` (JavaScript's `undefined`)
      when there are no detections. */
  function SelectSingleFace(ds: seq<Detection>): (r: Option<Detection>)
    ensures r.None? <==> |ds| == 0
    ensures r.Some? ==> r.value in ds
    ensures r.Some? ==> forall j :: 0 <= j < |ds| ==> r.value.score <= ds[j].score
  {
    var sorted := SortByScore(ds);
    if |sorted| == 0 then None
    else
      assert sorted[0] in multiset(ds);
      assert forall j :: 0 <= j < |ds| ==> ds[j] in multiset(sorted);
      Some(sorted[0])
  }

  /** `k` is the position of the first detection of `ds` with the lowest score. */
  ghost predicate IsFirstMinimum(ds: seq<Detection>, k: nat) {
    && k < |ds|
    && (forall j :: 0 <= j < |ds| ==> ds[k].score <= ds[j].score)
    && (forall j :: 0 <= j < k ==> ds[k].score < ds[j].score)
  }

  /** Reference definition of the selection: a left-to-right scan for the
      first detection with the lowest score. */
  function FirstMinIndex(ds: seq<Detection>): (k: nat)
    requires |ds| > 0
    ensures IsFirstMinimum(ds, k)
  {
    if |ds| == 1 then 0
    else
      var k := FirstMinIndex(ds[1..]);
      if ds[0].score <= ds[k + 1].score then 0 else k + 1
  }

  /** The first minimum is unique. */
  lemma FirstMinimumUnique(ds: seq<Detection>, k1: nat, k2: nat)
    requires IsFirstMinimum(ds, k1) && IsFirstMinimum(ds, k2)
    ensures k1 == k2
  {
    assert ds[k1].score == ds[k2].score;
  }

  /** Element 0 of the sort is the first detection with the lowest score. */
  lemma {:induction false} SortByScoreHeadIsFirstMinimum(ds: seq<Detection>)
    requires |ds| > 0
    ensures SortByScore(ds)[0] == ds[FirstMinIndex(ds)]
  {
    if |ds| > 1 {
      var tail := ds[1..];
      SortByScoreHeadIsFirstMinimum(tail);
      var k := FirstMinIndex(tail);
      assert tail[k] == ds[k + 1];
    }
  }

  /** The single face selected from a non-empty list is its first
      lowest-scoring detection. */
  lemma SelectSingleFaceIsFirstMinimum(ds: seq<Detection>)
    requires |ds| > 0
    ensures SelectSingleFace(ds) == Some(ds[FirstMinIndex(ds)])
  {
    SortByScoreHeadIsFirstMinimum(ds);
  }

  /** Inserting `d` adds it to the detections of its own score class, in
      front of those already there, and leaves every other class alone. */
  lemma {:induction false} InsertWithScore(d: Detection, s: seq<Detection>, v: real)
    requires SortedByScore(s)
    ensures WithScore(Insert(d, s), v) == if d.score == v then [d] + WithScore(s, v) else WithScore(s, v)
  {
    if |s| == 0 || d.score <= s[0].score {
      assert ([d] + s)[1..] == s;
    } else {
      var rest := Insert(d, s[1..]);
      InsertWithScore(d, s[1..], v);
      assert ([s[0]] + rest)[1..] == rest;
      if s[0].score == v && d.score == v {
        assert false;
      }
    }
  }

  /** The sort is stable: for every score, the detections with that score
      appear in the sorted list in the same order as in the input. */
  lemma {:induction false} SortByScoreIsStable(ds: seq<Detection>, v: real)
    ensures WithScore(SortByScore(ds), v) == WithScore(ds, v)
  {
    if |ds| > 0 {
      SortByScoreIsStable(ds[1..], v);
      InsertWithScore(ds[0], SortByScore(ds[1..]), v);
    }
  }

  /** A sorted list whose score classes are those of `ds`, each in its
      original order, is the sort of `ds`: any stable ascending sort agrees
      with `SortByScore`. */
  lemma {:induction false} StableSortIsUnique(ds: seq<Detection>, r: seq<Detection>)
    requires SortedByScore(r)
    requires forall v :: WithScore(r, v) == WithScore(ds, v)
    ensures r == SortByScore(ds)
  {
    var s := SortByScore(ds);
    forall v ensures WithScore(r, v) == WithScore(s, v) {
      SortByScoreIsStable(ds, v);
    }
    SortedWithSameClassesEqual(r, s);
  }

  /** Two sorted lists with the same score classes are equal. */
  lemma {:induction false} SortedWithSameClassesEqual(a: seq<Detection>, b: seq<Detection>)
    requires SortedByScore(a) && SortedByScore(b)
    requires forall v :: WithScore(a, v) == WithScore(b, v)
    ensures a == b
  {
    // An empty list has no score classes, a non-empty one has at least one.
    if |a| > 0 {
      WithScoreNonEmpty(a, 0);
    }
    if |b| > 0 {
      WithScoreNonEmpty(b, 0);
    }
    if |a| > 0 && |b| > 0 {
      // The head of each list has the lowest score present in both.
      HeadScoreIsLowest(a, b);
      HeadScoreIsLowest(b, a);
      var m := a[0].score;
      assert WithScore(a, m)[0] == a[0];
      assert WithScore(b, m)[0] == b[0];
      assert a[0] == b[0];
      forall v ensures WithScore(a[1..], v) == WithScore(b[1..], v) {
        assert WithScore(a, v) == WithScore(b, v);
        if v == m {
          assert WithScore(a, v) == [a[0]] + WithScore(a[1..], v);
          assert WithScore(b, v) == [b[0]] + WithScore(b[1..], v);
          assert WithScore(a[1..], v) == WithScore(a, v)[1..];
          assert WithScore(b[1..], v) == WithScore(b, v)[1..];
        }
      }
      SortedWithSameClassesEqual(a[1..], b[1..]);
      assert a == [a[0]] + a[1..] && b == [b[0]] + b[1..];
    }
  }

  /** A score that occurs in a list occurs among its score classes. */
  lemma {:induction false} WithScoreNonEmpty(s: seq<Detection>, i: nat)
    requires i < |s|
    ensures s[i] in WithScore(s, s[i].score)
  {
    if i > 0 {
      WithScoreNonEmpty(s[1..], i - 1);
    }
  }

  /** Every element of a score class has that score and is in the list. */
  lemma {:induction false} WithScoreMembers(s: seq<Detection>, v: real)
    ensures forall d :: d in WithScore(s, v) ==> d.score == v && d in s
  {
    if |s| > 0 {
      WithScoreMembers(s[1..], v);
    }
  }

  /** When both lists are sorted, non-empty and have the same score
      classes, the head of `a` scores no higher than the head of `b`. */
  lemma HeadScoreIsLowest(a: seq<Detection>, b: seq<Detection>)
    requires SortedByScore(a) && SortedByScore(b) && |a| > 0 && |b| > 0
    requires forall v :: WithScore(a, v) == WithScore(b, v)
    ensures a[0].score <= b[0].score
  {
    WithScoreNonEmpty(b, 0);
    assert WithScore(a, b[0].score) == WithScore(b, b[0].score);
    WithScoreMembers(a, b[0].score);
    var i :| 0 <= i < |a| && a[i] == b[0];
    assert a[0].score <= a[i].score;
  }
}
