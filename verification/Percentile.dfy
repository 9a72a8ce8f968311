/** The nearest-rank percentiles of the latency report, over real numbers. */
module Percentile {
  import opened Ordering

  predicate Le(a: real, b: real) {
    a <= b
  }

  function Count(samples: seq<real>, p: real -> bool): nat {
    if samples == [] then 0 else (if p(samples[0]) then 1 else 0) + Count(samples[1..], p)
  }

  function AtMost(x: real): real -> bool {
    (y: real) => y <= x
  }

  function Under(x: real): real -> bool {
    (y: real) => y < x
  }

  /** The index for `weight` hundredths of samples, rounded up. */
  function Rank(weight: nat): nat {
    var last := (weight + 99) / 100 - 1;
    if last < 0 then 0 else last
  }

  lemma {:induction false} CountInsert(x: real, s: seq<real>, p: real -> bool)
    ensures Count(Insert(Le, x, s), p) == (if p(x) then 1 else 0) + Count(s, p)
  {
    if s != [] && !Le(x, s[0]) {
      CountInsert(x, s[1..], p);
      assert Insert(Le, x, s)[1..] == Insert(Le, x, s[1..]);
    } else {
      assert Insert(Le, x, s)[1..] == s;
    }
  }

  lemma {:induction false} CountSort(s: seq<real>, p: real -> bool)
    ensures Count(Sort(Le, s), p) == Count(s, p)
  {
    if s != [] {
      CountSort(s[1..], p);
      CountInsert(s[0], Sort(Le, s[1..]), p);
    }
  }

  lemma {:induction false} CountPrefix(s: seq<real>, p: real -> bool, k: nat)
    requires k <= |s| && forall i :: 0 <= i < k ==> p(s[i])
    ensures k <= Count(s, p)
  {
    if k > 0 {
      CountPrefix(s[1..], p, k - 1);
    }
  }

  lemma {:induction false} CountSuffix(s: seq<real>, p: real -> bool, k: nat)
    requires k <= |s| && forall i :: k <= i < |s| ==> !p(s[i])
    ensures Count(s, p) <= k
  {
    if s != [] {
      CountSuffix(s[1..], p, if k == 0 then 0 else k - 1);
    }
  }

  lemma RankFits(n: nat, weight: nat)
    requires 0 < n && weight <= 100 * n
    ensures Rank(weight) < n && weight <= 100 * (Rank(weight) + 1)
    ensures Rank(weight) == 0 || 100 * Rank(weight) < weight
  {
  }

  lemma AtMostAll(n: nat, pct: nat)
    requires pct <= 100
    ensures n * pct <= 100 * n
  {
  }

  /** At least this share of the samples is at or below `x`, and less than it strictly below. */
  predicate NearestRank(samples: seq<real>, weight: nat, x: real) {
    && x in samples
    && weight <= 100 * Count(samples, AtMost(x))
    && (100 * Count(samples, Under(x)) < weight || Count(samples, Under(x)) == 0)
  }

  lemma RankedIsNearest(samples: seq<real>, weight: nat)
    requires samples != [] && weight <= 100 * |samples|
    ensures Rank(weight) < |Sort(Le, samples)| == |samples|
    ensures NearestRank(samples, weight, Sort(Le, samples)[Rank(weight)])
  {
    var ordered, k := Sort(Le, samples), Rank(weight);
    SortPermutes(Le, samples);
    SameMembers(ordered, samples);
    RankFits(|samples|, weight);
    assert ordered[k] in ordered;
    RankedCounts(samples, k);
    Shares(weight, k, Count(samples, Under(ordered[k])), Count(samples, AtMost(ordered[k])));
  }

  lemma NearestIs(samples: seq<real>, pct: nat)
    requires samples != [] && pct <= 100
    ensures Rank(|samples| * pct) < |Sort(Le, samples)| == |samples|
    ensures NearestRank(samples, |samples| * pct, Sort(Le, samples)[Rank(|samples| * pct)])
  {
    AtMostAll(|samples|, pct);
    RankedIsNearest(samples, |samples| * pct);
  }

  /** To the nearest integer, ties to even. */
  function Nearest(x: real): int {
    var low := x.Floor;
    var above := x - low as real;
    if above < 0.5 || (above == 0.5 && low % 2 == 0) then low else low + 1
  }

  /** `round(x, 3)`. */
  function Rounded(x: real): real {
    Nearest(1000.0 * x) as real / 1000.0
  }

  /** `pct` percent of the samples, by nearest rank, as it is displayed. */
  method Compute(samples: seq<real>, pct: nat) returns (shown: real)
    requires samples != [] && pct <= 100
    ensures exists x :: NearestRank(samples, |samples| * pct, x) && shown == Rounded(x)
  {
    var ordered := Sort(Le, samples);
    NearestIs(samples, pct);
    shown := Rounded(ordered[Rank(|ordered| * pct)]);
  }

  lemma Shares(weight: nat, k: nat, under: nat, atMost: nat)
    requires weight <= 100 * (k + 1) && (k == 0 || 100 * k < weight)
    requires under <= k && k + 1 <= atMost
    ensures weight <= 100 * atMost && (100 * under < weight || under == 0)
  {
  }

  lemma RankedCounts(samples: seq<real>, k: nat)
    requires |Sort(Le, samples)| == |samples| && k < |samples|
    ensures k + 1 <= Count(samples, AtMost(Sort(Le, samples)[k]))
    ensures Count(samples, Under(Sort(Le, samples)[k])) <= k
  {
    var ordered := Sort(Le, samples);
    SortSorts(Le, samples);
    var x := ordered[k];
    assert forall i, j :: 0 <= i < j < |ordered| ==> ordered[i] <= ordered[j];
    CountPrefix(ordered, AtMost(x), k + 1);
    CountSuffix(ordered, Under(x), k);
    CountSort(samples, AtMost(x));
    CountSort(samples, Under(x));
  }

  /** The nearest rank is the least value with that share of the samples at or below it. */
  lemma NearestRankIsLeast(samples: seq<real>, weight: nat, x: real, y: real)
    requires NearestRank(samples, weight, x) && 0 < weight <= 100 * Count(samples, AtMost(y))
    ensures x <= y
  {
    if y < x {
      CountGrows(samples, AtMost(y), Under(x));
    }
  }

  lemma {:induction false} CountGrows(samples: seq<real>, p: real -> bool, q: real -> bool)
    requires forall v :: p(v) ==> q(v)
    ensures Count(samples, p) <= Count(samples, q)
  {
    if samples != [] {
      CountGrows(samples[1..], p, q);
    }
  }

  // ----- What is displayed --------------------------------------------------

  lemma NearestIsClose(x: real)
    ensures x - 0.5 <= Nearest(x) as real <= x + 0.5
  {
  }

  lemma NearestGrows(x: real, y: real)
    requires x <= y
    ensures Nearest(x) <= Nearest(y)
  {
    assert x.Floor <= y.Floor;
  }

  /** Rounding moves a figure by at most half a thousandth and never swaps two figures. */
  lemma RoundedFaithfully(x: real, y: real)
    ensures x - 0.0005 <= Rounded(x) <= x + 0.0005
    ensures x <= y ==> Rounded(x) <= Rounded(y)
  {
    NearestIsClose(1000.0 * x);
    if x <= y {
      NearestGrows(1000.0 * x, 1000.0 * y);
    }
  }

  lemma {:induction false} CountsMember(samples: seq<real>, p: real -> bool, y: real)
    requires y in samples && p(y)
    ensures Count(samples, p) > 0
  {
    if samples[0] != y {
      CountsMember(samples[1..], p, y);
    }
  }

  /** A higher percentile is never displayed below a lower one. */
  lemma PercentilesAreOrdered(samples: seq<real>, low: nat, high: nat, x: real, y: real)
    requires low <= high && NearestRank(samples, low, x) && NearestRank(samples, high, y)
    ensures x <= y && Rounded(x) <= Rounded(y)
  {
    if low > 0 {
      NearestRankIsLeast(samples, low, x, y);
    } else if y < x {
      CountsMember(samples, Under(x), y);
    }
    RoundedFaithfully(x, y);
  }
}
