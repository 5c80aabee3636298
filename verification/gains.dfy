/**
  Maximum possible gains from trade: buyer unit values sorted high to low are
  paired with seller unit costs sorted low to high, and the surplus of the
  leading profitable pairs is summed.
 */
module Gains {
  import opened SimTypes

  /** `x` may precede `y`: ascending order, or descending order when `asc` is false. */
  predicate Before(asc: bool, x: int, y: int) {
    if asc then x <= y else y <= x
  }

  predicate Sorted(asc: bool, s: seq<int>) {
    forall i, j :: 0 <= i < j < |s| ==> Before(asc, s[i], s[j])
  }

  function Insert(asc: bool, x: int, s: seq<int>): (r: seq<int>)
    requires Sorted(asc, s)
    ensures Sorted(asc, r)
    ensures multiset(r) == multiset(s) + multiset{x}
    ensures |r| == |s| + 1
    ensures forall y :: y in r <==> y == x || y in s
  {
    if |s| == 0 then [x]
    else if Before(asc, x, s[0]) then [x] + s
    else
      var rest := Insert(asc, x, s[1..]);
      assert s == [s[0]] + s[1..];
      assert forall k | 0 <= k < |rest| :: Before(asc, s[0], rest[k]) by {
        forall k | 0 <= k < |rest| ensures Before(asc, s[0], rest[k]) {
          assert rest[k] == x || rest[k] in s[1..];
        }
      }
      [s[0]] + rest
  }

  /** A sorted copy of `s` (the source sorts a slice of the configuration array). */
  function Sort(asc: bool, s: seq<int>): (r: seq<int>)
    ensures Sorted(asc, r)
    ensures multiset(r) == multiset(s)
    ensures |r| == |s|
  {
    if |s| == 0 then []
    else
      assert s == [s[0]] + s[1..];
      Insert(asc, s[0], Sort(asc, s[1..]))
  }

  /** Two sorted arrangements of the same multiset are the same sequence. */
  lemma {:induction false} SortedUnique(asc: bool, a: seq<int>, b: seq<int>)
    requires Sorted(asc, a) && Sorted(asc, b)
    requires multiset(a) == multiset(b)
    ensures a == b
    decreases |a|
  {
    assert |a| == |multiset(a)| == |multiset(b)| == |b|;
    if |a| > 0 {
      assert a[0] in multiset(b);
      assert b[0] in multiset(a);
      assert Before(asc, b[0], a[0]) && Before(asc, a[0], b[0]);
      assert a == [a[0]] + a[1..];
      assert b == [b[0]] + b[1..];
      assert a[0] == b[0];
      assert multiset(a[1..]) == multiset(a) - multiset{a[0]};
      assert multiset(b[1..]) == multiset(b) - multiset{b[0]};
      SortedUnique(asc, a[1..], b[1..]);
    }
  }

  /** Sorting does not depend on the order of its input. */
  lemma {:induction false} SortIgnoresOrder(asc: bool, s: seq<int>, t: seq<int>)
    requires multiset(s) == multiset(t)
    ensures Sort(asc, s) == Sort(asc, t)
  {
    SortedUnique(asc, Sort(asc, s), Sort(asc, t));
  }

  function Min(a: int, b: int): int {
    if a < b then a else b
  }

  /** Surplus of the first `k` pairs value[j] - cost[j]. */
  function PairedSurplus(v: seq<int>, c: seq<int>, k: nat): int
    requires k <= |v| && k <= |c|
  {
    if k == 0 then 0 else PairedSurplus(v, c, k - 1) + (v[k - 1] - c[k - 1])
  }

  /** Every one of the first `k` pairs is profitable. */
  predicate ProfitableUpTo(v: seq<int>, c: seq<int>, k: nat)
    requires k <= |v| && k <= |c|
  {
    forall j :: 0 <= j < k ==> v[j] > c[j]
  }

  /** `k` is the length of the longest profitable prefix of pairs. */
  predicate IsProfitablePrefix(v: seq<int>, c: seq<int>, k: nat) {
    && k <= Min(|v|, |c|)
    && ProfitableUpTo(v, c, k)
    && (k < Min(|v|, |c|) ==> v[k] <= c[k])
  }

  function PrefixFrom(v: seq<int>, c: seq<int>, i: nat): (k: nat)
    requires i <= Min(|v|, |c|)
    requires ProfitableUpTo(v, c, i)
    ensures IsProfitablePrefix(v, c, k)
    decreases Min(|v|, |c|) - i
  {
    if i < Min(|v|, |c|) && v[i] > c[i] then PrefixFrom(v, c, i + 1) else i
  }

  function ProfitablePrefix(v: seq<int>, c: seq<int>): (k: nat)
    ensures IsProfitablePrefix(v, c, k)
  {
    PrefixFrom(v, c, 0)
  }

  lemma ProfitablePrefixUnique(v: seq<int>, c: seq<int>, k: nat, k': nat)
    requires IsProfitablePrefix(v, c, k) && IsProfitablePrefix(v, c, k')
    ensures k == k'
  {
  }

  lemma {:induction false} ProfitableSurplusPositive(v: seq<int>, c: seq<int>, k: nat)
    requires k <= |v| && k <= |c| && ProfitableUpTo(v, c, k)
    ensures PairedSurplus(v, c, k) >= k
  {
    if k > 0 {
      ProfitableSurplusPositive(v, c, k - 1);
    }
  }

  /**
    The maximum possible gains from trade of the configured values and costs
    (0 unless both are arrays).
   */
  function MaxGains(buyerValues: Option<seq<int>>, sellerCosts: Option<seq<int>>): int {
    if buyerValues.Some? && sellerCosts.Some? then
      var v := Sort(false, buyerValues.value);
      var c := Sort(true, sellerCosts.value);
      PairedSurplus(v, c, ProfitablePrefix(v, c))
    else 0
  }

  /**
    The source's loop: sort copies, then add value - cost while the pair is
    profitable and both lists last.
   */
  method GetMaximumPossibleGainsFromTrade(buyerValues: Option<seq<int>>, sellerCosts: Option<seq<int>>)
    returns (result: int)
    ensures result == MaxGains(buyerValues, sellerCosts)
    ensures result >= 0
    ensures buyerValues.None? || sellerCosts.None? ==> result == 0
  {
    result := 0;
    if buyerValues.Some? && sellerCosts.Some? {
      var buyerV := Sort(false, buyerValues.value);
      var sellerC := Sort(true, sellerCosts.value);
      var i := 0;
      var l := Min(|buyerV|, |sellerC|);
      while i < l && buyerV[i] > sellerC[i]
        invariant 0 <= i <= l
        invariant ProfitableUpTo(buyerV, sellerC, i)
        invariant result == PairedSurplus(buyerV, sellerC, i)
        invariant result >= i
      {
        result := result + (buyerV[i] - sellerC[i]);
        i := i + 1;
      }
      ProfitablePrefixUnique(buyerV, sellerC, i, ProfitablePrefix(buyerV, sellerC));
    }
  }

  /** The gains are at least 0. */
  lemma MaxGainsNonNegative(buyerValues: Option<seq<int>>, sellerCosts: Option<seq<int>>)
    ensures MaxGains(buyerValues, sellerCosts) >= 0
  {
    if buyerValues.Some? && sellerCosts.Some? {
      var v := Sort(false, buyerValues.value);
      var c := Sort(true, sellerCosts.value);
      ProfitableSurplusPositive(v, c, ProfitablePrefix(v, c));
    }
  }

  /** The gains do not depend on the order in which values and costs are configured. */
  lemma {:induction false} MaxGainsIgnoresOrder(v: seq<int>, v': seq<int>, c: seq<int>, c': seq<int>)
    requires multiset(v) == multiset(v') && multiset(c) == multiset(c')
    ensures MaxGains(Some(v), Some(c)) == MaxGains(Some(v'), Some(c'))
  {
    SortIgnoresOrder(false, v, v');
    SortIgnoresOrder(true, c, c');
  }

  /** Sum over the first `n` pairs of the positive part of value - cost. */
  function PositiveSurplus(v: seq<int>, c: seq<int>, n: nat): int
    requires n <= |v| && n <= |c|
  {
    if n == 0 then 0 else PositiveSurplus(v, c, n - 1) + Max(0, v[n - 1] - c[n - 1])
  }

  lemma {:induction false} PositiveSurplusOnPrefix(v: seq<int>, c: seq<int>, n: nat)
    requires n <= |v| && n <= |c| && ProfitableUpTo(v, c, n)
    ensures PositiveSurplus(v, c, n) == PairedSurplus(v, c, n)
  {
    if n > 0 {
      PositiveSurplusOnPrefix(v, c, n - 1);
    }
  }

  lemma {:induction false} PositiveSurplusPastPrefix(v: seq<int>, c: seq<int>, k: nat, n: nat)
    requires Sorted(false, v) && Sorted(true, c)
    requires IsProfitablePrefix(v, c, k)
    requires k <= n <= Min(|v|, |c|)
    ensures PositiveSurplus(v, c, n) == PairedSurplus(v, c, k)
    decreases n
  {
    if n == k {
      PositiveSurplusOnPrefix(v, c, k);
    } else {
      PositiveSurplusPastPrefix(v, c, k, n - 1);
      assert v[n - 1] <= v[k] <= c[k] <= c[n - 1];
    }
  }

  /**
    Because the values are sorted down and the costs up, stopping at the first
    unprofitable pair loses nothing: the gains equal the summed positive parts
    of every pair up to the shorter list.
   */
  lemma {:induction false} MaxGainsIsPositivePartSum(v: seq<int>, c: seq<int>)
    ensures MaxGains(Some(v), Some(c))
            == PositiveSurplus(Sort(false, v), Sort(true, c), Min(|v|, |c|))
  {
    var sv := Sort(false, v);
    var sc := Sort(true, c);
    PositiveSurplusPastPrefix(sv, sc, ProfitablePrefix(sv, sc), Min(|v|, |c|));
  }

  // ------------------------------------------------------------ optimality

  lemma {:induction false} SumConcat(a: seq<int>, b: seq<int>)
    ensures Sum(a + b) == Sum(a) + Sum(b)
    decreases |b|
  {
    if |b| > 0 {
      assert (a + b)[..|a + b| - 1] == a + b[..|b| - 1];
      SumConcat(a, b[..|b| - 1]);
    } else {
      assert a + b == a;
    }
  }

  /** Sums respect a pointwise order (ascending, or descending when `asc` is false). */
  lemma {:induction false} SumPointwise(asc: bool, a: seq<int>, b: seq<int>)
    requires |a| == |b|
    requires forall k :: 0 <= k < |a| ==> Before(asc, a[k], b[k])
    ensures Before(asc, Sum(a), Sum(b))
    decreases |a|
  {
    if |a| > 0 {
      SumPointwise(asc, a[..|a| - 1], b[..|b| - 1]);
    }
  }

  /** Sum of `b` with its `i`-th element taken out. */
  lemma {:induction false} SumWithout(b: seq<int>, i: nat)
    requires i < |b|
    ensures Sum(b) == b[i] + Sum(b[..i] + b[i + 1..])
    decreases |b|
  {
    var init := b[..|b| - 1];
    if i == |b| - 1 {
      assert b[..i] + b[i + 1..] == init;
    } else {
      SumWithout(init, i);
      var without := b[..i] + b[i + 1..];
      assert without[..|without| - 1] == init[..i] + init[i + 1..];
      assert without[|without| - 1] == b[|b| - 1];
    }
  }

  lemma SumSingle(x: int)
    ensures Sum([x]) == x
  {
    assert [x][..0] == [];
  }

  /** The first `n` entries sum to the head plus the next `n - 1`. */
  lemma SumHead(s: seq<int>, n: nat)
    requires 0 < n <= |s|
    ensures Sum(s[..n]) == s[0] + Sum(s[1..][..n - 1])
  {
    assert s[..n] == [s[0]] + s[1..][..n - 1];
    SumConcat([s[0]], s[1..][..n - 1]);
    assert Sum([s[0]]) == s[0];
  }

  /** In a sorted list the window one further along sums on the far side of the leading window. */
  lemma ShiftedWindow(asc: bool, s: seq<int>, n: nat)
    requires Sorted(asc, s)
    requires n < |s|
    ensures Before(asc, Sum(s[..n]), Sum(s[1..][..n]))
  {
    forall k | 0 <= k < n
      ensures Before(asc, s[..n][k], s[1..][..n][k])
    {
      assert s[..n][k] == s[k] && s[1..][..n][k] == s[k + 1];
    }
    SumPointwise(asc, s[..n], s[1..][..n]);
  }

  lemma MultisetWithout(b: seq<int>, i: nat)
    requires i < |b|
    ensures multiset(b[..i] + b[i + 1..]) == multiset(b) - multiset{b[i]}
  {
    assert b == b[..i] + [b[i]] + b[i + 1..];
  }

  lemma SubMultisetSize(a: seq<int>, b: seq<int>)
    requires multiset(a) <= multiset(b)
    ensures |a| <= |b|
  {
    var extra := multiset(b) - multiset(a);
    assert multiset(b) == multiset(a) + extra;
    assert |multiset(b)| == |multiset(a)| + |extra|;
  }

  lemma SortedTail(asc: bool, s: seq<int>)
    requires Sorted(asc, s) && |s| > 0
    ensures Sorted(asc, s[1..])
  {
    forall i, j | 0 <= i < j < |s| - 1
      ensures Before(asc, s[1..][i], s[1..][j])
    {
      assert s[1..][i] == s[i + 1] && s[1..][j] == s[j + 1];
    }
  }

  lemma MultisetTail(s: seq<int>)
    requires |s| > 0
    ensures multiset(s[1..]) == multiset(s) - multiset{s[0]}
  {
    assert s == [s[0]] + s[1..];
  }

  /** Matching the head of `s` with `b[i]` leaves the rest of `b` drawn from the tail of `s`. */
  lemma DrawnFromTail(s: seq<int>, b: seq<int>, i: nat)
    requires multiset(b) <= multiset(s)
    requires i < |b| && 0 < |s| && b[i] == s[0]
    ensures multiset(b[..i] + b[i + 1..]) <= multiset(s[1..])
  {
    MultisetWithout(b, i);
    MultisetTail(s);
  }

  /**
    Any |b| units drawn from `s` sum to no more than its first |b| entries when
    `s` is sorted high to low, and to no less when it is sorted low to high.
   */
  lemma {:induction false} PrefixSumIsExtreme(asc: bool, s: seq<int>, b: seq<int>)
    requires Sorted(asc, s)
    requires multiset(b) <= multiset(s)
    ensures |b| <= |s|
    ensures Before(asc, Sum(s[..|b|]), Sum(b))
    decreases |s|, 1
  {
    SubMultisetSize(b, s);
    if |b| > 0 {
      if s[0] in multiset(b) {
        var i :| 0 <= i < |b| && b[i] == s[0];
        HeadDrawn(asc, s, b, i);
      } else {
        HeadNotDrawn(asc, s, b);
      }
    }
  }

  /** The head of `s` is among the drawn units: match it with `b[i]` and draw the rest from the tail. */
  lemma {:induction false} HeadDrawn(asc: bool, s: seq<int>, b: seq<int>, i: nat)
    requires Sorted(asc, s)
    requires multiset(b) <= multiset(s)
    requires i < |b| && b[i] == s[0]
    ensures |b| <= |s|
    ensures Before(asc, Sum(s[..|b|]), Sum(b))
    decreases |s|, 0
  {
    SubMultisetSize(b, s);
    var tail, rest := s[1..], b[..i] + b[i + 1..];
    DrawnFromTail(s, b, i);
    SortedTail(asc, s);
    PrefixSumIsExtreme(asc, tail, rest);
    SumWithout(b, i);
    SumHead(s, |b|);
  }

  /** The head of `s` is not drawn: all of `b` comes from the tail, whose window is no better. */
  lemma {:induction false} HeadNotDrawn(asc: bool, s: seq<int>, b: seq<int>)
    requires Sorted(asc, s)
    requires multiset(b) <= multiset(s)
    requires |b| > 0 && s[0] !in multiset(b)
    ensures |b| < |s|
    ensures Before(asc, Sum(s[..|b|]), Sum(b))
    decreases |s|, 0
  {
    MultisetTail(s);
    SortedTail(asc, s);
    assert multiset(b) <= multiset(s[1..]);
    PrefixSumIsExtreme(asc, s[1..], b);
    ShiftedWindow(asc, s, |b|);
  }

  lemma {:induction false} PairedSurplusIsSumDifference(v: seq<int>, c: seq<int>, k: nat)
    requires k <= |v| && k <= |c|
    ensures PairedSurplus(v, c, k) == Sum(v[..k]) - Sum(c[..k])
  {
    if k > 0 {
      PairedSurplusIsSumDifference(v, c, k - 1);
      assert v[..k][..k - 1] == v[..k - 1];
      assert c[..k][..k - 1] == c[..k - 1];
    }
  }

  lemma {:induction false} PairedAtMostPositive(v: seq<int>, c: seq<int>, k: nat)
    requires k <= |v| && k <= |c|
    ensures PairedSurplus(v, c, k) <= PositiveSurplus(v, c, k)
  {
    if k > 0 {
      PairedAtMostPositive(v, c, k - 1);
    }
  }

  lemma {:induction false} PositiveSurplusGrows(v: seq<int>, c: seq<int>, k: nat, n: nat)
    requires k <= n <= |v| && n <= |c|
    ensures PositiveSurplus(v, c, k) <= PositiveSurplus(v, c, n)
    decreases n
  {
    if k < n {
      PositiveSurplusGrows(v, c, k, n - 1);
    }
  }

  lemma PrefixMultiset(s: seq<int>, k: nat)
    requires k <= |s|
    ensures multiset(s[..k]) <= multiset(s)
  {
    assert s == s[..k] + s[k..];
  }

  /**
    A trading plan: `bought[j]` is the value of a buyer unit and `sold[j]` the
    cost of the seller unit it trades with; no configured unit is used twice.
   */
  predicate Feasible(v: seq<int>, c: seq<int>, bought: seq<int>, sold: seq<int>) {
    && |bought| == |sold|
    && multiset(bought) <= multiset(v)
    && multiset(sold) <= multiset(c)
  }

  /**
    The gains are the maximum: no feasible plan of trades between the
    configured buyer units and seller units realises more surplus.
   */
  lemma {:induction false} MaxGainsIsOptimal(v: seq<int>, c: seq<int>, bought: seq<int>, sold: seq<int>)
    requires Feasible(v, c, bought, sold)
    ensures Sum(bought) - Sum(sold) <= MaxGains(Some(v), Some(c))
  {
    var sv := Sort(false, v);
    var sc := Sort(true, c);
    var k := |bought|;
    PrefixSumIsExtreme(false, sv, bought);
    PrefixSumIsExtreme(true, sc, sold);
    PairedSurplusIsSumDifference(sv, sc, k);
    PairedAtMostPositive(sv, sc, k);
    PositiveSurplusGrows(sv, sc, k, Min(|v|, |c|));
    MaxGainsIsPositivePartSum(v, c);
  }

  /** ... and the maximum is attained: trading the leading profitable pairs is a feasible plan realising it. */
  lemma {:induction false} MaxGainsIsAttained(v: seq<int>, c: seq<int>)
    ensures var sv := Sort(false, v);
      var sc := Sort(true, c);
      var k := ProfitablePrefix(sv, sc);
      && Feasible(v, c, sv[..k], sc[..k])
      && Sum(sv[..k]) - Sum(sc[..k]) == MaxGains(Some(v), Some(c))
  {
    var sv := Sort(false, v);
    var sc := Sort(true, c);
    var k := ProfitablePrefix(sv, sc);
    PrefixMultiset(sv, k);
    PrefixMultiset(sc, k);
    PairedSurplusIsSumDifference(sv, sc, k);
  }

  /** When no value exceeds any cost there is nothing to gain. */
  lemma NoProfitablePairGivesZero(v: seq<int>, c: seq<int>)
    requires forall i, j :: 0 <= i < |v| && 0 <= j < |c| ==> v[i] <= c[j]
    ensures MaxGains(Some(v), Some(c)) == 0
  {
    var sv := Sort(false, v);
    var sc := Sort(true, c);
    if |sv| > 0 && |sc| > 0 {
      assert sv[0] in multiset(v);
      assert sc[0] in multiset(c);
      assert sv[0] <= sc[0];
    }
    assert IsProfitablePrefix(sv, sc, 0);
    ProfitablePrefixUnique(sv, sc, 0, ProfitablePrefix(sv, sc));
  }

  /** Values [10,9,8] all below costs [20,40]: no gains. */
  lemma CostsAboveValuesGiveZero()
    ensures MaxGains(Some([10, 9, 8]), Some([20, 40])) == 0
  {
    NoProfitablePairGivesZero([10, 9, 8], [20, 40]);
  }

  /** One buyer valuing 1000 and one seller costing 1: gains 999. */
  lemma SingleUnitGains()
    ensures MaxGains(Some([1000]), Some([1])) == 999
  {
    var v := Sort(false, [1000]);
    var c := Sort(true, [1]);
    assert v == [1000] && c == [1];
    assert IsProfitablePrefix(v, c, 1);
    ProfitablePrefixUnique(v, c, 1, ProfitablePrefix(v, c));
  }
}
