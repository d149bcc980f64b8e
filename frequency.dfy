/**
 * `collections.Counter` as analyze.py uses it: a frequency table over a list of
 * labels, and `most_common(k)`, its k most frequent labels.
 */
module Frequency {
  import opened Prelude

  /**
   * `Counter(labels)`: each distinct label mapped to its number of occurrences.
   * Counting proceeds left to right, one label at a time.
   */
  function Tabulate(labels: seq<string>): (t: map<string, nat>)
    ensures forall x :: x in t <==> x in labels
    ensures forall x :: x in t ==> t[x] == multiset(labels)[x] && t[x] > 0
  {
    if labels == [] then map[]
    else
      var rest := labels[..|labels| - 1];
      var x := labels[|labels| - 1];
      assert labels == rest + [x];
      var t := Tabulate(rest);
      t[x := if x in t then t[x] + 1 else 1]
  }

  /** A table depends only on the multiset of its labels, not on their order. */
  lemma TabulateIgnoresOrder(a: seq<string>, b: seq<string>)
    requires multiset(a) == multiset(b)
    ensures Tabulate(a) == Tabulate(b)
  {
  }

  /** Tabulating NOUN, VERB, NOUN counts NOUN twice and VERB once. */
  lemma TabulateExample()
    ensures Tabulate(["NOUN", "VERB", "NOUN"]) == map["NOUN" := 2, "VERB" := 1]
  {
    var s := ["NOUN", "VERB", "NOUN"];
    assert s[..2] == ["NOUN", "VERB"];
    assert s[..2][..1] == ["NOUN"];
    assert ["NOUN"][..0] == [];
  }

  /**
   * The index of the first occurrence of `x` in `s`, as `list.index` gives it;
   * |s| when `x` does not occur.
   */
  function FirstIndex(s: seq<string>, x: string): (i: nat)
    ensures i <= |s|
    ensures i < |s| <==> x in s
    ensures i < |s| ==> s[i] == x
    ensures forall j :: 0 <= j < i ==> s[j] != x
  {
    if s == [] then 0
    else if s[0] == x then 0
    else 1 + FirstIndex(s[1..], x)
  }

  /** The keys of `Counter(labels)` in their iteration order: the order of first insertion. */
  function Keys(labels: seq<string>): (d: seq<string>)
    ensures forall x :: x in d <==> x in labels
    ensures forall i, j :: 0 <= i < j < |d| ==> d[i] != d[j]
  {
    if labels == [] then []
    else
      var rest := labels[..|labels| - 1];
      var x := labels[|labels| - 1];
      assert labels == rest + [x];
      var d := Keys(rest);
      if x in d then d else d + [x]
  }

  /** The first occurrence in a prefix is the first occurrence in the whole list. */
  lemma FirstIndexOfPrefix(s: seq<string>, m: nat, x: string)
    requires m <= |s| && x in s[..m]
    ensures FirstIndex(s[..m], x) == FirstIndex(s, x)
  {
  }

  /** Counter keys come in the order of their first occurrence in the input. */
  lemma {:induction false} KeysInFirstOccurrenceOrder(labels: seq<string>)
    ensures forall i, j :: 0 <= i < j < |Keys(labels)| ==>
      FirstIndex(labels, Keys(labels)[i]) < FirstIndex(labels, Keys(labels)[j])
  {
    if labels != [] {
      var n := |labels| - 1;
      var rest := labels[..n];
      var x := labels[n];
      KeysInFirstOccurrenceOrder(rest);
      var d := Keys(rest);
      forall y | y in d
        ensures FirstIndex(labels, y) == FirstIndex(rest, y) < n
      {
        FirstIndexOfPrefix(labels, n, y);
      }
      var keys := Keys(labels);
      if x in d {
        assert keys == d;
      } else {
        assert keys == d + [x];
        assert FirstIndex(labels, x) == n;
        forall i, j | 0 <= i < j < |keys|
          ensures FirstIndex(labels, keys[i]) < FirstIndex(labels, keys[j])
        {
          assert keys[i] == d[i] && keys[i] in d;
          if j < |d| {
            assert keys[j] == d[j];
          }
        }
      }
    }
  }

  /** The sum of the counts a table holds for `keys`. */
  function SumCounts(t: map<string, nat>, keys: seq<string>): nat
    requires forall k :: k in keys ==> k in t
  {
    if keys == [] then 0 else SumCounts(t, keys[..|keys| - 1]) + t[keys[|keys| - 1]]
  }

  /** Changing the count of a key that is not summed leaves the sum alone. */
  lemma {:induction false} SumCountsOtherKey(t: map<string, nat>, keys: seq<string>, x: string, v: nat)
    requires forall k :: k in keys ==> k in t
    requires x !in keys
    ensures SumCounts(t[x := v], keys) == SumCounts(t, keys)
  {
    if keys != [] {
      SumCountsOtherKey(t, keys[..|keys| - 1], x, v);
    }
  }

  /** Adding one to the count of a key summed once adds one to the sum. */
  lemma {:induction false} SumCountsBump(t: map<string, nat>, keys: seq<string>, x: string)
    requires forall k :: k in keys ==> k in t
    requires forall i, j :: 0 <= i < j < |keys| ==> keys[i] != keys[j]
    requires x in keys
    ensures SumCounts(t[x := t[x] + 1], keys) == SumCounts(t, keys) + 1
  {
    var n := |keys| - 1;
    var p := keys[..n];
    if keys[n] == x {
      assert x !in p;
      SumCountsOtherKey(t, p, x, t[x] + 1);
    } else {
      SumCountsBump(t, p, x);
    }
  }

  /** The counts of `Counter(labels)`, over all its keys, sum to the number of labels. */
  lemma {:induction false} TabulateTotal(labels: seq<string>)
    ensures SumCounts(Tabulate(labels), Keys(labels)) == |labels|
  {
    if labels != [] {
      var rest := labels[..|labels| - 1];
      var x := labels[|labels| - 1];
      var t := Tabulate(rest);
      var d := Keys(rest);
      TabulateTotal(rest);
      if x in t {
        SumCountsBump(t, d, x);
      } else {
        SumCountsOtherKey(t, d, x, 1);
        assert (d + [x])[..|d|] == d;
      }
    }
  }

  /** One `(label, count)` pair of `Counter.items()` / `most_common`. */
  datatype Entry = Entry(key: string, count: nat)

  /** `Counter(labels).items()`, in iteration order. */
  function Items(labels: seq<string>): (items: seq<Entry>)
    ensures |items| == |Keys(labels)|
    ensures forall i :: 0 <= i < |items| ==>
      items[i].key == Keys(labels)[i] && items[i].count == Tabulate(labels)[items[i].key]
  {
    var d := Keys(labels);
    seq(|d|, i requires 0 <= i < |d| => Entry(d[i], multiset(labels)[d[i]]))
  }

  /**
   * The items are exactly the `(key, count)` pairs of the table `Counter(labels)`,
   * one per key.
   */
  lemma ItemsAreTable(labels: seq<string>)
    ensures forall e :: e in Items(labels) <==> e.key in Tabulate(labels) && e.count == Tabulate(labels)[e.key]
    ensures forall i, j :: 0 <= i < j < |Items(labels)| ==> Items(labels)[i].key != Items(labels)[j].key
  {
    var items, t, d := Items(labels), Tabulate(labels), Keys(labels);
    forall e: Entry | e.key in t && e.count == t[e.key]
      ensures e in items
    {
      var p :| 0 <= p < |d| && d[p] == e.key;
      assert items[p] == e;
    }
  }

  /**
   * Stable insertion into a list sorted by decreasing count: `e` goes after
   * every entry whose count is at least its own.
   */
  function Insert(ys: seq<Entry>, e: Entry): (r: seq<Entry>)
    ensures multiset(r) == multiset(ys) + multiset{e}
  {
    if ys == [] then [e]
    else if ys[0].count >= e.count then
      assert ys == [ys[0]] + ys[1..];
      [ys[0]] + Insert(ys[1..], e)
    else
      assert ys == [ys[0]] + ys[1..];
      [e] + ys
  }

  /** Every entry of `Insert(ys, e)` comes from `ys` or is `e`. */
  lemma InsertElements(ys: seq<Entry>, e: Entry)
    ensures forall y :: y in Insert(ys, e) ==> y in ys || y == e
  {
  }

  /**
   * The stable sort by decreasing count that `most_common` performs
   * (`heapq.nlargest`, equivalent to `sorted(..., reverse=True)`, is stable).
   */
  function SortByCount(xs: seq<Entry>): (r: seq<Entry>)
    ensures multiset(r) == multiset(xs)
  {
    if xs == [] then []
    else
      var n := |xs| - 1;
      assert xs == xs[..n] + [xs[n]];
      Insert(SortByCount(xs[..n]), xs[n])
  }

  /**
   * `a` comes before `b` in a `most_common` list of `labels`: it is more
   * frequent, or as frequent and seen first.
   */
  ghost predicate Precedes(labels: seq<string>, a: Entry, b: Entry)
  {
    a.count > b.count || (a.count == b.count && FirstIndex(labels, a.key) < FirstIndex(labels, b.key))
  }

  ghost predicate Ranked(labels: seq<string>, xs: seq<Entry>)
  {
    forall i, j :: 0 <= i < j < |xs| ==> Precedes(labels, xs[i], xs[j])
  }

  /** Inserting an entry seen after all the others keeps ties in first-seen order. */
  lemma {:induction false} InsertRanked(labels: seq<string>, ys: seq<Entry>, e: Entry)
    requires Ranked(labels, ys)
    requires forall y :: y in ys ==> FirstIndex(labels, y.key) < FirstIndex(labels, e.key)
    ensures Ranked(labels, Insert(ys, e))
  {
    if ys != [] {
      var r := Insert(ys, e);
      if ys[0].count >= e.count {
        var tail := Insert(ys[1..], e);
        assert forall y :: y in ys[1..] ==> y in ys;
        InsertRanked(labels, ys[1..], e);
        InsertElements(ys[1..], e);
        forall j | 0 < j < |r|
          ensures Precedes(labels, r[0], r[j])
        {
          assert r[j] in tail;
          if r[j] != e {
            var k :| 0 <= k < |ys[1..]| && ys[1..][k] == r[j];
            assert ys[k + 1] == r[j];
          }
        }
      } else {
        assert forall j :: 0 < j < |ys| ==> ys[0].count >= ys[j].count;
      }
    }
  }

  /** Every entry sorted from a first-seen-ordered prefix was seen before the entry that follows it. */
  lemma SortedPrefixSeenEarlier(labels: seq<string>, xs: seq<Entry>)
    requires xs != []
    requires forall i, j :: 0 <= i < j < |xs| ==>
      FirstIndex(labels, xs[i].key) < FirstIndex(labels, xs[j].key)
    ensures forall y :: y in SortByCount(xs[..|xs| - 1]) ==>
      FirstIndex(labels, y.key) < FirstIndex(labels, xs[|xs| - 1].key)
  {
    var n := |xs| - 1;
    var p := xs[..n];
    var sorted := SortByCount(p);
    forall y | y in sorted
      ensures FirstIndex(labels, y.key) < FirstIndex(labels, xs[n].key)
    {
      assert y in multiset(sorted);
      assert y in multiset(p);
      var k :| 0 <= k < n && p[k] == y;
      assert xs[k] == y;
    }
  }

  /** Sorting entries given in first-seen order ranks them as `most_common` does. */
  lemma {:induction false} SortByCountRanked(labels: seq<string>, xs: seq<Entry>)
    requires forall i, j :: 0 <= i < j < |xs| ==>
      FirstIndex(labels, xs[i].key) < FirstIndex(labels, xs[j].key)
    ensures Ranked(labels, SortByCount(xs))
  {
    if xs != [] {
      var n := |xs| - 1;
      var p := xs[..n];
      assert forall i :: 0 <= i < n ==> p[i] == xs[i];
      SortByCountRanked(labels, p);
      SortedPrefixSeenEarlier(labels, xs);
      InsertRanked(labels, SortByCount(p), xs[n]);
      assert SortByCount(xs) == Insert(SortByCount(p), xs[n]);
    }
  }

  /** `Counter(labels).most_common(k)`. */
  function MostCommon(labels: seq<string>, k: nat): (r: seq<Entry>)
    ensures |r| <= k
  {
    Take(SortByCount(Items(labels)), k)
  }

  /** The sorted items come ranked, since the items come in first-seen order. */
  lemma SortedItemsRanked(labels: seq<string>)
    ensures Ranked(labels, SortByCount(Items(labels)))
  {
    var items, d := Items(labels), Keys(labels);
    KeysInFirstOccurrenceOrder(labels);
    assert forall i :: 0 <= i < |items| ==> items[i].key == d[i];
    SortByCountRanked(labels, items);
  }

  /** Every sorted item is a label that occurs, with its number of occurrences. */
  lemma SortedItemsCounts(labels: seq<string>)
    ensures forall e :: e in SortByCount(Items(labels)) ==>
      e.key in labels && e.count == multiset(labels)[e.key]
  {
    var items, d := Items(labels), Keys(labels);
    var sorted := SortByCount(items);
    forall e | e in sorted
      ensures e.key in labels && e.count == multiset(labels)[e.key]
    {
      assert e in multiset(sorted);
      assert e in multiset(items);
      var p :| 0 <= p < |items| && items[p] == e;
      assert d[p] in labels;
    }
  }

  /** Every label that occurs is among the sorted items, with its number of occurrences. */
  lemma SortedItemsComplete(labels: seq<string>)
    ensures forall x :: x in labels ==> Entry(x, multiset(labels)[x]) in SortByCount(Items(labels))
  {
    var items, d := Items(labels), Keys(labels);
    var sorted := SortByCount(items);
    forall x | x in labels
      ensures Entry(x, multiset(labels)[x]) in sorted
    {
      var p :| 0 <= p < |d| && d[p] == x;
      assert items[p] == Entry(x, multiset(labels)[x]);
      assert items[p] in multiset(items);
      assert items[p] in multiset(sorted);
    }
  }

  /**
   * The sorted items of `Counter(labels)`: ranked as `most_common` ranks them,
   * each with its true count, and every label present.
   */
  lemma SortedItems(labels: seq<string>)
    ensures Ranked(labels, SortByCount(Items(labels)))
    ensures forall e :: e in SortByCount(Items(labels)) ==>
      e.key in labels && e.count == multiset(labels)[e.key]
    ensures forall x :: x in labels ==> Entry(x, multiset(labels)[x]) in SortByCount(Items(labels))
  {
    SortedItemsRanked(labels);
    SortedItemsCounts(labels);
    SortedItemsComplete(labels);
  }

  /**
   * `most_common(k)` lists min(k, #distinct) distinct labels with their true
   * counts, most frequent first and ties in first-seen order.
   */
  lemma MostCommonRanked(labels: seq<string>, k: nat)
    ensures var r := MostCommon(labels, k);
      && |r| == (if |Keys(labels)| < k then |Keys(labels)| else k)
      && (forall i :: 0 <= i < |r| ==> r[i].key in labels && r[i].count == multiset(labels)[r[i].key])
      && (forall i, j :: 0 <= i < j < |r| ==> r[i].key != r[j].key)
      && Ranked(labels, r)
  {
    SortedItems(labels);
    var items := Items(labels);
    var sorted := SortByCount(items);
    assert |sorted| == |multiset(sorted)| == |multiset(items)| == |items| == |Keys(labels)|;
    var r := MostCommon(labels, k);
    assert r == sorted[..|r|];
    forall i | 0 <= i < |r|
      ensures r[i] == sorted[i] && r[i].key in labels && r[i].count == multiset(labels)[r[i].key]
    {
      assert sorted[i] in sorted;
    }
    forall i, j | 0 <= i < j < |r|
      ensures Precedes(labels, r[i], r[j]) && r[i].key != r[j].key
    {
      assert Precedes(labels, sorted[i], sorted[j]);
    }
  }

  /** Every label `most_common(k)` leaves out ranks after the last one it lists. */
  lemma MostCommonComplete(labels: seq<string>, k: nat, x: string)
    requires x in labels
    requires forall i :: 0 <= i < |MostCommon(labels, k)| ==> MostCommon(labels, k)[i].key != x
    ensures |MostCommon(labels, k)| == k
    ensures k > 0 ==> Precedes(labels, MostCommon(labels, k)[k - 1], Entry(x, multiset(labels)[x]))
  {
    SortedItems(labels);
    var sorted := SortByCount(Items(labels));
    var r := MostCommon(labels, k);
    var e := Entry(x, multiset(labels)[x]);
    var q :| 0 <= q < |sorted| && sorted[q] == e;
    assert r == sorted[..|r|];
    assert forall i :: 0 <= i < |r| ==> r[i] == sorted[i];
    assert q >= |r|;
    assert |r| == k;
    if k > 0 {
      assert r[k - 1] == sorted[k - 1];
      assert Precedes(labels, sorted[k - 1], sorted[q]);
    }
  }

  lemma KeysExample()
    ensures Keys(["run", "run", "jump", "run", "fast"]) == ["run", "jump", "fast"]
  {
    var s := ["run", "run", "jump", "run", "fast"];
    assert s[..4] == ["run", "run", "jump", "run"];
    assert s[..4][..3] == ["run", "run", "jump"];
    assert s[..4][..3][..2] == ["run", "run"];
    assert s[..4][..3][..2][..1] == ["run"];
    assert Keys(["run"]) == ["run"];
    assert Keys(["run", "run"]) == ["run"];
    assert Keys(["run", "run", "jump"]) == ["run", "jump"];
    assert Keys(s[..4]) == ["run", "jump"];
  }

  lemma ItemsExample()
    ensures Items(["run", "run", "jump", "run", "fast"]) == [Entry("run", 3), Entry("jump", 1), Entry("fast", 1)]
  {
    var s := ["run", "run", "jump", "run", "fast"];
    KeysExample();
    assert s[..4] == ["run", "run", "jump", "run"];
    assert s[..4][..3] == ["run", "run", "jump"];
    assert s[..4][..3][..2] == ["run", "run"];
    assert s[..4][..3][..2][..1] == ["run"];
    assert ["run"][..0] == [];
    assert Tabulate(["run"]) == map["run" := 1];
    assert Tabulate(["run", "run"]) == map["run" := 2];
    assert Tabulate(["run", "run", "jump"]) == map["run" := 2, "jump" := 1];
    assert Tabulate(s[..4]) == map["run" := 3, "jump" := 1];
    assert Tabulate(s) == map["run" := 3, "jump" := 1, "fast" := 1];
    var items := Items(s);
    assert |items| == 3;
    assert items[0] == Entry("run", 3);
    assert items[1] == Entry("jump", 1);
    assert items[2] == Entry("fast", 1);
  }

  lemma SortExample()
    ensures SortByCount([Entry("run", 3), Entry("jump", 1), Entry("fast", 1)]) == [Entry("run", 3), Entry("jump", 1), Entry("fast", 1)]
  {
    var run, jump, fast := Entry("run", 3), Entry("jump", 1), Entry("fast", 1);
    assert [run, jump, fast][..2] == [run, jump];
    assert [run, jump][..1] == [run];
    assert SortByCount([run]) == [run];
    assert Insert([run], jump) == [run, jump];
    assert SortByCount([run, jump]) == [run, jump];
    assert [run, jump][1..] == [jump];
    assert Insert([jump], fast) == [jump, fast];
    assert Insert([run, jump], fast) == [run] + [jump, fast];
  }

  /** Lemmas run, run, jump, run, fast: `run` three times, then `jump` and `fast` once each. */
  lemma MostCommonExample()
    ensures MostCommon(["run", "run", "jump", "run", "fast"], 5)
      == [Entry("run", 3), Entry("jump", 1), Entry("fast", 1)]
  {
    ItemsExample();
    SortExample();
  }
}
