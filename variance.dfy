/**
 * `variance_measures` of analyze.py: reduces a sequence of integers (sentence
 * lengths, token lengths or clause counts) to its average, its spread, its
 * range and its oscillation ratio.
 */
module Variance {
  import opened Prelude

  /** `max()`/`min()` of an empty list raise; nothing before them guards the range. */
  datatype VarianceError = EmptySequence

  /**
   * The dictionary `variance_measures` returns. `sampleVariance` is the square
   * of the `stdev` entry: the model keeps the exact rational value and leaves
   * the square root out.
   */
  datatype Summary = Summary(average: real, sampleVariance: real, range: int, oscillationRatio: real)

  function Sum(s: seq<int>): int
  {
    if s == [] then 0 else s[0] + Sum(s[1..])
  }

  lemma {:induction false} SumAppend(s: seq<int>, x: int)
    ensures Sum(s + [x]) == Sum(s) + x
  {
    if s != [] {
      SumAppend(s[1..], x);
      assert (s + [x])[1..] == s[1..] + [x];
    }
  }

  /** Python's `max` over a non-empty list. */
  function Max(s: seq<int>): (m: int)
    requires s != []
    ensures m in s
    ensures forall x :: x in s ==> x <= m
  {
    if |s| == 1 then s[0]
    else
      var rest := Max(s[1..]);
      assert forall x :: x in s ==> x == s[0] || x in s[1..];
      if s[0] >= rest then s[0] else rest
  }

  /** Python's `min` over a non-empty list. */
  function Min(s: seq<int>): (m: int)
    requires s != []
    ensures m in s
    ensures forall x :: x in s ==> m <= x
  {
    if |s| == 1 then s[0]
    else
      var rest := Min(s[1..]);
      assert forall x :: x in s ==> x == s[0] || x in s[1..];
      if s[0] <= rest then s[0] else rest
  }

  /** `sum(input_list) / len(input_list) if len(input_list) > 0 else 0`, as an exact quotient. */
  function Average(s: seq<int>): (a: real)
    ensures s == [] ==> a == 0.0
    ensures s != [] ==> a * |s| as real == Sum(s) as real
  {
    if |s| > 0 then
      var total, n := Sum(s) as real, |s| as real;
      assert (total / n) * n == total;
      total / n
    else 0.0
  }

  /**
   * n² times the sum of the squared deviations from the mean, kept in integers:
   * the sum over i of (n·s[i] − Sum(s))².
   */
  function ScaledSquaredDeviations(s: seq<int>, n: int, total: int): int
  {
    if s == [] then 0 else (n * s[0] - total) * (n * s[0] - total) + ScaledSquaredDeviations(s[1..], n, total)
  }

  /**
   * The square of `statistics.stdev(input_list) if len(input_list) > 1 else 0`:
   * the sample variance Σ(x − mean)² / (n − 1), written exactly as
   * ScaledSquaredDeviations / (n²·(n − 1)).
   */
  function SampleVariance(s: seq<int>): (v: real)
    ensures v >= 0.0
  {
    if |s| > 1 then
      var n := |s|;
      ScaledSquaredDeviationsZeroIff(s, n, Sum(s));
      var num := ScaledSquaredDeviations(s, n, Sum(s)) as real;
      assert n * n * (n - 1) > 0;
      var den := (n * n * (n - 1)) as real;
      assert num >= 0.0 && den > 0.0;
      assert num / den >= 0.0;
      num / den
    else 0.0
  }

  /**
   * The number of adjacent pairs whose values differ:
   * `sum(1 for i in range(1, len(input_list)) if input_list[i] != input_list[i-1])`,
   * and 0 for fewer than two elements.
   */
  function OscillationCount(s: seq<int>): (c: nat)
    ensures |s| < 2 ==> c == 0
    ensures |s| >= 1 ==> c <= |s| - 1
  {
    if |s| < 2 then 0
    else OscillationCount(s[..|s| - 1]) + (if s[|s| - 1] != s[|s| - 2] then 1 else 0)
  }

  /** Position i holds a value different from the one before it. */
  predicate ChangesAt(s: seq<int>, i: nat)
    requires 1 <= i < |s|
  {
    s[i] != s[i - 1]
  }

  /** The positions i in [1, n) at which the value differs from its predecessor. */
  function ChangeIndices(s: seq<int>): set<nat>
  {
    set i: nat | 1 <= i < |s| && ChangesAt(s, i)
  }

  /** The oscillation ratio: changes per adjacent pair, 0 when there is no pair. */
  function OscillationRatio(s: seq<int>): (r: real)
    ensures 0.0 <= r <= 1.0
    ensures |s| < 2 ==> r == 0.0
    ensures |s| >= 2 ==> r * (|s| - 1) as real == OscillationCount(s) as real
  {
    if |s| > 1 then
      var count, pairs := OscillationCount(s) as real, (|s| - 1) as real;
      assert pairs > 0.0 && 0.0 <= count <= pairs;
      DivisionBounds(count, pairs, 0.0, 1.0);
      assert (count / pairs) * pairs == count;
      count / pairs
    else 0.0
  }

  /**
   * `variance_measures(input_list)`. The standard deviation and the average are
   * guarded against short input; the range is not, so an empty list fails.
   */
  function VarianceMeasures(s: seq<int>): (r: Result<Summary, VarianceError>)
    ensures r.Err? <==> s == []
    ensures r.Ok? ==> forall x, y :: x in s && y in s ==> x - y <= r.value.range
    ensures r.Ok? ==> exists x, y :: x in s && y in s && x - y == r.value.range
    ensures r.Ok? ==> r.value.range >= 0
    ensures r.Ok? ==> Min(s) as real <= r.value.average <= Max(s) as real
    ensures r.Ok? ==> 0.0 <= r.value.oscillationRatio <= 1.0
    ensures r.Ok? && |s| < 2 ==> r.value.sampleVariance == 0.0 && r.value.oscillationRatio == 0.0
    ensures r.Ok? ==> r.value.average == Average(s)
    ensures r.Ok? ==> r.value.sampleVariance == SampleVariance(s) && r.value.sampleVariance >= 0.0
    ensures r.Ok? ==> r.value.oscillationRatio == OscillationRatio(s)
  {
    if s == [] then Err(EmptySequence)
    else
      var hi, lo := Max(s), Min(s);
      assert hi in s && lo in s;
      AverageWithin(s, lo, hi);
      Ok(Summary(Average(s), SampleVariance(s), hi - lo, OscillationRatio(s)))
  }

  function Reverse(s: seq<int>): (r: seq<int>)
    ensures |r| == |s|
  {
    if s == [] then [] else [s[|s| - 1]] + Reverse(s[..|s| - 1])
  }

  lemma {:induction false} ReverseAt(s: seq<int>, k: nat)
    requires k < |s|
    ensures Reverse(s)[k] == s[|s| - 1 - k]
  {
    if k > 0 {
      ReverseAt(s[..|s| - 1], k - 1);
    }
  }

  /** The oscillation count is the number of change positions. */
  lemma {:induction false} OscillationCountIsChangeCount(s: seq<int>)
    ensures OscillationCount(s) == |ChangeIndices(s)|
  {
    if |s| < 2 {
      assert ChangeIndices(s) == {};
    } else {
      var p := s[..|s| - 1];
      OscillationCountIsChangeCount(p);
      var last := if s[|s| - 1] != s[|s| - 2] then {|s| - 1} else {};
      assert ChangeIndices(s) == ChangeIndices(p) + last;
      assert |s| - 1 !in ChangeIndices(p);
    }
  }

  /** Prepending one element adds a change exactly when it differs from the old head. */
  lemma {:induction false} OscillationCountCons(x: int, s: seq<int>)
    requires s != []
    ensures OscillationCount([x] + s) == OscillationCount(s) + (if x != s[0] then 1 else 0)
  {
    if |s| >= 2 {
      var p := s[..|s| - 1];
      OscillationCountCons(x, p);
      assert ([x] + s)[..|[x] + s| - 1] == [x] + p;
    }
  }

  /** Reversing a sequence keeps its oscillation count: only unordered adjacent pairs matter. */
  lemma {:induction false} OscillationCountReverse(s: seq<int>)
    ensures OscillationCount(Reverse(s)) == OscillationCount(s)
  {
    if |s| >= 2 {
      var p := s[..|s| - 1];
      OscillationCountReverse(p);
      ReverseAt(p, 0);
      OscillationCountCons(s[|s| - 1], Reverse(p));
    }
  }

  /** Hence the oscillation ratio is unchanged by reversal too. */
  lemma OscillationRatioReverse(s: seq<int>)
    ensures OscillationRatio(Reverse(s)) == OscillationRatio(s)
  {
    OscillationCountReverse(s);
  }

  lemma {:induction false} SumBounds(s: seq<int>, lo: int, hi: int)
    requires forall x :: x in s ==> lo <= x <= hi
    ensures |s| * lo <= Sum(s) <= |s| * hi
  {
    if s != [] {
      var t := s[1..];
      forall x | x in t
        ensures lo <= x <= hi
      {
        var k :| 0 <= k < |t| && t[k] == x;
        assert s[k + 1] == x && s[k + 1] in s;
      }
      SumBounds(t, lo, hi);
      assert s[0] in s;
      assert Sum(s) == s[0] + Sum(t);
      MultiplySuccessor(|t|, lo);
      MultiplySuccessor(|t|, hi);
    }
  }

  lemma MultiplySuccessor(n: nat, c: int)
    ensures (n + 1) * c == c + n * c
  {
  }

  lemma ProductAsReal(a: int, b: int)
    ensures (a * b) as real == a as real * b as real
  {
  }

  /** Dividing by a positive count keeps a bound that holds of the multiplied value. */
  lemma DivisionBounds(total: real, n: real, lo: real, hi: real)
    requires n > 0.0
    requires n * lo <= total <= n * hi
    ensures lo <= total / n <= hi
  {
  }

  /** The average of a non-empty list lies within any bounds that hold of all its values. */
  lemma AverageWithin(s: seq<int>, lo: int, hi: int)
    requires s != []
    requires forall x :: x in s ==> lo <= x <= hi
    ensures lo as real <= Average(s) <= hi as real
  {
    SumBounds(s, lo, hi);
    ProductAsReal(|s|, lo);
    ProductAsReal(|s|, hi);
    DivisionBounds(Sum(s) as real, |s| as real, lo as real, hi as real);
  }

  lemma {:induction false} ScaledSquaredDeviationsZeroIff(s: seq<int>, n: int, total: int)
    ensures ScaledSquaredDeviations(s, n, total) >= 0
    ensures ScaledSquaredDeviations(s, n, total) == 0 <==> forall i :: 0 <= i < |s| ==> n * s[i] == total
  {
    if s != [] {
      ScaledSquaredDeviationsZeroIff(s[1..], n, total);
      var d := n * s[0] - total;
      assert d * d >= 0;
      assert d != 0 ==> d * d > 0;
      assert forall i :: 1 <= i < |s| ==> s[i] == s[1..][i - 1];
    }
  }

  lemma {:induction false} SumOfConstant(s: seq<int>, c: int)
    requires forall i :: 0 <= i < |s| ==> s[i] == c
    ensures Sum(s) == |s| * c
  {
    if s != [] {
      SumOfConstant(s[1..], c);
      assert |s| * c == c + (|s| - 1) * c;
    }
  }

  /**
   * For two or more values the standard deviation is 0 exactly when all values
   * are equal; below two values it is 0 by the guard.
   */
  lemma SampleVarianceZeroIffConstant(s: seq<int>)
    ensures SampleVariance(s) == 0.0 <==> (|s| < 2 || forall i :: 0 <= i < |s| ==> s[i] == s[0])
  {
    if |s| >= 2 {
      var n := |s|;
      var num := ScaledSquaredDeviations(s, n, Sum(s));
      assert n * n * (n - 1) > 0;
      var den := (n * n * (n - 1)) as real;
      assert SampleVariance(s) == num as real / den;
      QuotientZeroIff(num as real, den);
      DeviationsZeroIffConstant(s);
    }
  }

  /** The scaled squared deviations vanish exactly when all values are equal. */
  lemma DeviationsZeroIffConstant(s: seq<int>)
    requires s != []
    ensures ScaledSquaredDeviations(s, |s|, Sum(s)) == 0 <==> forall i :: 0 <= i < |s| ==> s[i] == s[0]
  {
    var n, total := |s|, Sum(s);
    ScaledSquaredDeviationsZeroIff(s, n, total);
    if forall i :: 0 <= i < |s| ==> s[i] == s[0] {
      SumOfConstant(s, s[0]);
      assert forall i :: 0 <= i < |s| ==> n * s[i] == total;
    } else {
      var i :| 0 <= i < |s| && s[i] != s[0];
      MultiplyCancels(n, s[i], s[0]);
      assert n * s[i] != total || n * s[0] != total;
    }
  }

  /** A quotient by a positive number is zero exactly when its numerator is. */
  lemma QuotientZeroIff(a: real, b: real)
    requires b > 0.0
    ensures a / b == 0.0 <==> a == 0.0
  {
    assert (a / b) * b == a;
  }

  /** Multiplying by a positive factor keeps distinct values distinct. */
  lemma MultiplyCancels(n: int, a: int, b: int)
    requires n > 0 && a != b
    ensures n * a != n * b
  {
    if a < b {
      assert n * b - n * a == n * (b - a) > 0;
    } else {
      assert n * a - n * b == n * (a - b) > 0;
    }
  }

  /** Sentence lengths 5, 8, 5: mean 6, sample variance 3, range 3, ratio 1. */
  lemma SentenceLengthsExample()
    ensures VarianceMeasures([5, 8, 5]) == Ok(Summary(6.0, 3.0, 3, 1.0))
  {
    assert Max([5, 8, 5]) == 8;
    assert Min([5, 8, 5]) == 5;
    assert OscillationCount([5, 8, 5]) == 2 by {
      assert [5, 8, 5][..2] == [5, 8];
      assert [5, 8][..1] == [5];
    }
  }

  /** One change among two adjacent pairs gives one half, two give 1, a constant list gives 0. */
  lemma OscillationExamples()
    ensures OscillationRatio([3, 3, 5]) == 0.5
    ensures OscillationRatio([3, 5, 3]) == 1.0
    ensures OscillationRatio([3, 3, 3]) == 0.0
  {
    assert [3, 3, 5][..2] == [3, 3];
    assert [3, 5, 3][..2] == [3, 5];
    assert [3, 3, 3][..2] == [3, 3];
    assert [3, 3][..1] == [3];
    assert [3, 5][..1] == [3];
  }
}
