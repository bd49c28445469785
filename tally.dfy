/**
 * Tag frequencies as the statistics page accumulates them in a plain object
 * (`counts[tag] = (counts[tag] || 0) + 1`), read back with `Object.entries` in key insertion
 * order, and the top-N list cut from them after a stable sort by count.
 */
module Tally {
  import opened Common
  import opened Ordering

  /** One `[tag, count]` entry of the object. */
  datatype TagCount = TagCount(tag: string, count: int)

  function Keys(t: seq<TagCount>): (r: seq<string>)
    ensures |r| == |t|
    ensures forall i :: 0 <= i < |t| ==> r[i] == t[i].tag
  {
    seq(|t|, i requires 0 <= i < |t| => t[i].tag)
  }

  predicate DistinctKeys(t: seq<TagCount>) {
    forall i, j :: 0 <= i < j < |t| ==> t[i].tag != t[j].tag
  }

  /**
   * One increment of the object: an existing key keeps its place and gains one, a new key is
   * added last with count 1.
   */
  function Bump(t: seq<TagCount>, x: string): (r: seq<TagCount>)
    requires DistinctKeys(t)
    ensures DistinctKeys(r)
    ensures x in Keys(t) ==> |r| == |t| && forall i :: 0 <= i < |t| ==>
              r[i].tag == t[i].tag && r[i].count == t[i].count + (if t[i].tag == x then 1 else 0)
    ensures x !in Keys(t) ==> r == t + [TagCount(x, 1)]
  {
    if x in Keys(t) then
      seq(|t|, i requires 0 <= i < |t| => if t[i].tag == x then TagCount(x, t[i].count + 1) else t[i])
    else
      var r := t + [TagCount(x, 1)];
      assert forall i :: 0 <= i < |t| ==> r[i].tag == Keys(t)[i];
      r
  }

  /**
   * The object after counting every element of `xs` in turn: its keys are the distinct
   * elements of `xs`, and each key's count is its number of occurrences.
   */
  function TallyOf(xs: seq<string>): (r: seq<TagCount>)
    ensures DistinctKeys(r)
    ensures forall x :: x in Keys(r) <==> x in xs
    ensures forall i :: 0 <= i < |r| ==> r[i].count == multiset(xs)[r[i].tag]
    decreases |xs|
  {
    if xs == [] then []
    else
      var init, x := xs[..|xs| - 1], xs[|xs| - 1];
      assert xs == init + [x];
      var t := TallyOf(init);
      var r := Bump(t, x);
      assert x in Keys(t) ==> Keys(r) == Keys(t);
      assert x !in Keys(t) ==> Keys(r) == Keys(t) + [x];
      r
  }

  /** Counting one more element is one increment of the object. */
  lemma TallyOfSnoc(xs: seq<string>, x: string)
    ensures TallyOf(xs + [x]) == Bump(TallyOf(xs), x)
  {
    assert (xs + [x])[..|xs|] == xs;
  }

  /** Counting the next element of `ys` after `xs` and a prefix of `ys`. */
  lemma TallyOfPrefixStep(xs: seq<string>, ys: seq<string>, j: nat)
    requires j < |ys|
    ensures TallyOf(xs + ys[..j + 1]) == Bump(TallyOf(xs + ys[..j]), ys[j])
  {
    assert xs + ys[..j + 1] == (xs + ys[..j]) + [ys[j]];
    TallyOfSnoc(xs + ys[..j], ys[j]);
  }

  /** The position where `x` first occurs in `xs`. */
  function FirstIndex(xs: seq<string>, x: string): (k: nat)
    requires x in xs
    ensures k < |xs| && xs[k] == x
    ensures forall j :: 0 <= j < k ==> xs[j] != x
    decreases |xs|
  {
    if xs[0] == x then 0 else FirstIndex(xs[1..], x) + 1
  }

  lemma {:induction false} FirstIndexAppend(xs: seq<string>, x: string, y: string)
    requires y in xs
    ensures FirstIndex(xs + [x], y) == FirstIndex(xs, y)
    decreases |xs|
  {
    if xs[0] != y {
      assert (xs + [x])[1..] == xs[1..] + [x];
      FirstIndexAppend(xs[1..], x, y);
    }
  }

  lemma FirstIndexOfNew(xs: seq<string>, x: string)
    requires x !in xs
    ensures FirstIndex(xs + [x], x) == |xs|
  {
  }

  /** The entries come in the order in which their tags first occur in `xs`. */
  lemma {:induction false} TallyInFirstOccurrenceOrder(xs: seq<string>)
    ensures forall i, j :: 0 <= i < j < |TallyOf(xs)| ==>
              FirstIndex(xs, TallyOf(xs)[i].tag) < FirstIndex(xs, TallyOf(xs)[j].tag)
    decreases |xs|
  {
    if xs != [] {
      var init, x := xs[..|xs| - 1], xs[|xs| - 1];
      assert xs == init + [x];
      TallyInFirstOccurrenceOrder(init);
      var t := TallyOf(init);
      var r := TallyOf(xs);
      assert r == Bump(t, x);
      forall i | 0 <= i < |t| ensures FirstIndex(xs, r[i].tag) == FirstIndex(init, t[i].tag) {
        assert r[i].tag == t[i].tag;
        assert t[i].tag in Keys(t);
        FirstIndexAppend(init, x, t[i].tag);
      }
      forall i, j | 0 <= i < j < |r| ensures FirstIndex(xs, r[i].tag) < FirstIndex(xs, r[j].tag) {
        if j >= |t| {
          assert x !in Keys(t) && r[j].tag == x;
          FirstIndexOfNew(init, x);
          assert FirstIndex(init, t[i].tag) < |init|;
        }
      }
    }
  }

  // ---------------------------------------------------------------- top N

  function CountKey(e: TagCount): int {
    e.count
  }

  /** `Object.entries(counts).sort(([, a], [, b]) => b - a).slice(0, n)` for the counts of `xs`. */
  function TopTags(xs: seq<string>, n: nat): seq<TagCount> {
    Take(SortDesc(TallyOf(xs), CountKey), n)
  }

  /** Each kept entry is a tag of `xs` with its number of occurrences. */
  lemma TopTagsCounts(xs: seq<string>, n: nat)
    ensures |TopTags(xs, n)| <= n
    ensures forall i :: 0 <= i < |TopTags(xs, n)| ==>
              TopTags(xs, n)[i].tag in xs && TopTags(xs, n)[i].count == multiset(xs)[TopTags(xs, n)[i].tag]
  {
    var t := TallyOf(xs);
    var s := SortDesc(t, CountKey);
    var r := TopTags(xs, n);
    forall i | 0 <= i < |r|
      ensures r[i].tag in xs && r[i].count == multiset(xs)[r[i].tag]
    {
      assert r[i] == s[i];
      assert s[i] in multiset(t);
      var p :| 0 <= p < |t| && t[p] == s[i];
      assert t[p].tag in Keys(t);
    }
  }

  /** Most frequent first, and tags with equal counts in the order they were first met. */
  lemma TopTagsOrder(xs: seq<string>, n: nat, k: int)
    ensures NonIncreasing(TopTags(xs, n), CountKey)
    ensures IsPrefix(WithKey(TopTags(xs, n), CountKey, k), WithKey(TallyOf(xs), CountKey, k))
  {
    var t := TallyOf(xs);
    var s := SortDesc(t, CountKey);
    SortDescStable(t, CountKey, k);
    WithKeyTake(s, n, CountKey, k);
  }

  /** No tag left out of the list occurs more often than a tag in it. */
  lemma TopTagsLeaveOutNoMoreFrequent(xs: seq<string>, n: nat, y: string, i: nat)
    requires y in xs && y !in Keys(TopTags(xs, n)) && i < |TopTags(xs, n)|
    ensures multiset(xs)[y] <= TopTags(xs, n)[i].count
  {
    var t := TallyOf(xs);
    var s := SortDesc(t, CountKey);
    assert y in Keys(t);
    var p :| 0 <= p < |t| && Keys(t)[p] == y;
    assert t[p] in multiset(s);
    CutOffNoLarger(s, n, t[p], i);
  }

  /** In a list sorted by decreasing count, an entry cut off by `Take` counts no more than a kept one. */
  lemma CutOffNoLarger(s: seq<TagCount>, n: nat, e: TagCount, i: nat)
    requires NonIncreasing(s, CountKey) && e in s && e.tag !in Keys(Take(s, n)) && i < |Take(s, n)|
    ensures e.count <= Take(s, n)[i].count
  {
    var q :| 0 <= q < |s| && s[q] == e;
    assert forall j :: 0 <= j < |Take(s, n)| ==> Keys(Take(s, n))[j] != e.tag;
    assert CountKey(s[i]) >= CountKey(s[q]);
  }
}
