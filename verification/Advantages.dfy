/**
 * `compute_group_advantages` over exact reals: rewards are centred and scaled inside each group of trajectories.
 * The square root is a parameter given by its defining equation.
 */
module Advantages {
  import opened Ordering

  datatype Trace = Trace(groupId: string, trajectoryId: string, reward: real)

  datatype Rollout = Rollout(id: string, reward: real)

  datatype Stats = Stats(mean: real, std: real, advantages: map<string, real>)

  const EPSILON := 0.000001

  ghost predicate SquareRoot(sqrt: real -> real) {
    forall x :: x >= 0.0 ==> sqrt(x) >= 0.0 && sqrt(x) * sqrt(x) == x
  }

  // ---------------------------------------------------------------- the specification

  function Sum(xs: seq<real>): real {
    if xs == [] then 0.0 else Sum(xs[..|xs| - 1]) + xs[|xs| - 1]
  }

  function Deviations(xs: seq<real>, mean: real): (d: seq<real>)
    ensures |d| == |xs| && forall i :: 0 <= i < |xs| ==> d[i] == xs[i] - mean
  {
    seq(|xs|, i requires 0 <= i < |xs| => xs[i] - mean)
  }

  function Square(x: real): real {
    x * x
  }

  function Squares(xs: seq<real>): (q: seq<real>)
    ensures |q| == |xs| && forall i :: 0 <= i < |xs| ==> q[i] == Square(xs[i])
  {
    seq(|xs|, i requires 0 <= i < |xs| => Square(xs[i]))
  }

  function Mean(xs: seq<real>): real
    requires xs != []
  {
    Sum(xs) / |xs| as real
  }

  function Variance(xs: seq<real>): real
    requires xs != []
  {
    Sum(Squares(Deviations(xs, Mean(xs)))) / |xs| as real
  }

  function Advantage(reward: real, mean: real, std: real): real {
    if std > EPSILON then (reward - mean) / (std + EPSILON) else 0.0
  }

  function Rewards(items: seq<Rollout>): (xs: seq<real>)
    ensures |xs| == |items| && forall i :: 0 <= i < |items| ==> xs[i] == items[i].reward
  {
    seq(|items|, i requires 0 <= i < |items| => items[i].reward)
  }

  /** `adv_map`: a repeated trajectory id keeps its last advantage. */
  function AdvantageMap(items: seq<Rollout>, mean: real, std: real): map<string, real> {
    if items == [] then map[]
    else
      var last := items[|items| - 1];
      AdvantageMap(items[..|items| - 1], mean, std)[last.id := Advantage(last.reward, mean, std)]
  }

  function StatsOf(items: seq<Rollout>, sqrt: real -> real): Stats
    requires items != []
  {
    var xs := Rewards(items);
    var std := sqrt(Variance(xs));
    Stats(Mean(xs), std, AdvantageMap(items, Mean(xs), std))
  }

  /** The rollouts of one group, in order. */
  function Group(traces: seq<Trace>, id: string): seq<Rollout> {
    if traces == [] then []
    else
      var t := traces[|traces| - 1];
      Group(traces[..|traces| - 1], id) + (if t.groupId == id then [Rollout(t.trajectoryId, t.reward)] else [])
  }

  // ---------------------------------------------------------------- the method

  method GroupTraces(traces: seq<Trace>) returns (byGroup: map<string, seq<Rollout>>)
    ensures forall id :: Group(traces, id) == if id in byGroup then byGroup[id] else []
    ensures forall id :: id in byGroup ==> byGroup[id] != []
  {
    byGroup := map[];
    for n := 0 to |traces|
      invariant forall id :: Group(traces[..n], id) == if id in byGroup then byGroup[id] else []
      invariant forall id :: id in byGroup ==> byGroup[id] != []
    {
      assert traces[..n + 1][..n] == traces[..n];
      var t := traces[n];
      var items := if t.groupId in byGroup then byGroup[t.groupId] else [];
      byGroup := byGroup[t.groupId := items + [Rollout(t.trajectoryId, t.reward)]];
    }
    assert traces[..|traces|] == traces;
  }

  method GroupStats(items: seq<Rollout>, sqrt: real -> real) returns (stats: Stats)
    requires items != []
    ensures stats == StatsOf(items, sqrt)
  {
    var rewards := Rewards(items);
    var mean := Mean(rewards);
    var std := sqrt(Variance(rewards));
    var advantages: map<string, real> := map[];
    for n := 0 to |items|
      invariant advantages == AdvantageMap(items[..n], mean, std)
    {
      assert items[..n + 1][..n] == items[..n];
      if std > EPSILON {
        advantages := advantages[items[n].id := (items[n].reward - mean) / (std + EPSILON)];
      } else {
        advantages := advantages[items[n].id := 0.0];
      }
    }
    assert items[..|items|] == items;
    stats := Stats(mean, std, advantages);
  }

  method ComputeGroupAdvantages(traces: seq<Trace>, sqrt: real -> real) returns (stats: map<string, Stats>)
    ensures forall id :: id in stats <==> Group(traces, id) != []
    ensures forall id :: id in stats ==> stats[id] == StatsOf(Group(traces, id), sqrt)
  {
    var byGroup := GroupTraces(traces);
    stats := map[];
    var rest := byGroup.Keys;
    while rest != {}
      invariant rest <= byGroup.Keys && stats.Keys == byGroup.Keys - rest
      invariant forall id :: id in stats ==> stats[id] == StatsOf(byGroup[id], sqrt)
      decreases |rest|
    {
      var id :| id in rest;
      var one := GroupStats(byGroup[id], sqrt);
      stats := stats[id := one];
      rest := rest - {id};
    }
  }

  // ---------------------------------------------------------------- sums

  lemma {:induction false} SumScaled(xs: seq<real>, ys: seq<real>, shift: real, scale: real)
    requires |xs| == |ys| && forall i :: 0 <= i < |xs| ==> ys[i] == (xs[i] - shift) * scale
    ensures Sum(ys) == (Sum(xs) - |xs| as real * shift) * scale
  {
    if xs != [] {
      var n := |xs| - 1;
      SumScaled(xs[..n], ys[..n], shift, scale);
    }
  }

  lemma MeanTimesCount(xs: seq<real>)
    requires xs != []
    ensures |xs| as real * Mean(xs) == Sum(xs)
  {
  }

  /** Scaled deviations from the mean sum to zero. */
  lemma ScaledCancel(xs: seq<real>, ys: seq<real>, scale: real)
    requires xs != [] && |xs| == |ys| && forall i :: 0 <= i < |xs| ==> ys[i] == (xs[i] - Mean(xs)) * scale
    ensures Sum(ys) == 0.0
  {
    SumScaled(xs, ys, Mean(xs), scale);
    MeanTimesCount(xs);
    assert Sum(ys) == 0.0 * scale;
  }

  lemma DeviationsCancel(xs: seq<real>)
    requires xs != []
    ensures Sum(Deviations(xs, Mean(xs))) == 0.0
  {
    ScaledCancel(xs, Deviations(xs, Mean(xs)), 1.0);
  }

  function Advantages(xs: seq<real>, mean: real, std: real): (a: seq<real>)
    ensures |a| == |xs| && forall i :: 0 <= i < |xs| ==> a[i] == Advantage(xs[i], mean, std)
  {
    seq(|xs|, i requires 0 <= i < |xs| => Advantage(xs[i], mean, std))
  }

  lemma {:induction false} SumZeros(xs: seq<real>)
    requires forall i :: 0 <= i < |xs| ==> xs[i] == 0.0
    ensures Sum(xs) == 0.0
  {
    if xs != [] { SumZeros(xs[..|xs| - 1]); }
  }

  lemma Divide(a: real, b: real)
    requires b > 0.0
    ensures a / b == a * (1.0 / b)
  {
  }

  /** The advantages of a group sum to zero. */
  lemma AdvantagesCancel(xs: seq<real>, std: real)
    requires xs != []
    ensures Sum(Advantages(xs, Mean(xs), std)) == 0.0
  {
    var m, a := Mean(xs), Advantages(xs, Mean(xs), std);
    if std > EPSILON {
      var scale := 1.0 / (std + EPSILON);
      forall i | 0 <= i < |xs| ensures a[i] == (xs[i] - m) * scale { Divide(xs[i] - m, std + EPSILON); }
      ScaledCancel(xs, a, scale);
    } else {
      SumZeros(a);
    }
  }

  // ---------------------------------------------------------------- the map

  ghost predicate DistinctIds(items: seq<Rollout>) {
    forall i, j :: 0 <= i < j < |items| ==> items[i].id != items[j].id
  }

  lemma {:induction false} MapHasAll(items: seq<Rollout>, mean: real, std: real)
    requires DistinctIds(items)
    ensures forall id :: id in AdvantageMap(items, mean, std) <==> exists i :: 0 <= i < |items| && items[i].id == id
    ensures forall i :: 0 <= i < |items| ==>
              items[i].id in AdvantageMap(items, mean, std)
              && AdvantageMap(items, mean, std)[items[i].id] == Advantage(items[i].reward, mean, std)
  {
    if items != [] {
      var n := |items| - 1;
      MapHasAll(items[..n], mean, std);
      assert forall i :: 0 <= i < n ==> items[..n][i] == items[i];
    }
  }

  /** The recorded advantages, in the order of the rollouts. */
  function Recorded(items: seq<Rollout>, advantages: map<string, real>): seq<real>
    requires forall i :: 0 <= i < |items| ==> items[i].id in advantages
  {
    seq(|items|, i requires 0 <= i < |items| => advantages[items[i].id])
  }

  /** With distinct trajectory ids, the recorded advantages of every group sum to zero. */
  lemma GroupSumsToZero(traces: seq<Trace>, id: string, sqrt: real -> real)
    requires Group(traces, id) != [] && DistinctIds(Group(traces, id))
    ensures var items := Group(traces, id);
            var stats := StatsOf(items, sqrt);
            && (forall i :: 0 <= i < |items| ==> items[i].id in stats.advantages)
            && Sum(Recorded(items, stats.advantages)) == 0.0
  {
    var items := Group(traces, id);
    var stats := StatsOf(items, sqrt);
    MapHasAll(items, stats.mean, stats.std);
    assert Recorded(items, stats.advantages) == Advantages(Rewards(items), stats.mean, stats.std);
    AdvantagesCancel(Rewards(items), stats.std);
  }

  lemma QuotientOrder(a: real, b: real, s: real)
    requires s > 0.0
    ensures a / s < b / s <==> a < b
  {
    if a < b {
      assert b / s - a / s == (b - a) / s;
    } else {
      assert a / s - b / s == (a - b) / s;
    }
  }

  lemma AdvantageOrder(x: real, y: real, mean: real, std: real)
    requires std > EPSILON
    ensures Advantage(x, mean, std) < Advantage(y, mean, std) <==> x < y
    ensures Advantage(x, mean, std) > 0.0 <==> x > mean
  {
    QuotientOrder(x - mean, y - mean, std + EPSILON);
    QuotientOrder(0.0, x - mean, std + EPSILON);
    assert 0.0 / (std + EPSILON) == 0.0;
  }

  /** Above the threshold the advantages order rollouts as their rewards do; at or below it they are all zero. */
  lemma OrderIsKept(items: seq<Rollout>, sqrt: real -> real, i: nat, j: nat)
    requires items != [] && DistinctIds(items) && i < |items| && j < |items|
    ensures var stats := StatsOf(items, sqrt);
            && items[i].id in stats.advantages && items[j].id in stats.advantages
            && (stats.std > EPSILON ==>
                  (stats.advantages[items[i].id] < stats.advantages[items[j].id] <==> items[i].reward < items[j].reward)
                  && (stats.advantages[items[i].id] > 0.0 <==> items[i].reward > stats.mean))
            && (stats.std <= EPSILON ==> stats.advantages[items[i].id] == 0.0)
  {
    var stats := StatsOf(items, sqrt);
    MapHasAll(items, stats.mean, stats.std);
    if stats.std > EPSILON { AdvantageOrder(items[i].reward, items[j].reward, stats.mean, stats.std); }
  }

  // ---------------------------------------------------------------- shifting every reward

  function Shifted(items: seq<Rollout>, c: real): (r: seq<Rollout>)
    ensures |r| == |items| && forall i :: 0 <= i < |items| ==> r[i] == Rollout(items[i].id, items[i].reward + c)
  {
    seq(|items|, i requires 0 <= i < |items| => Rollout(items[i].id, items[i].reward + c))
  }

  lemma DivideShifted(a: real, n: real, c: real)
    requires n > 0.0
    ensures (a + n * c) / n == a / n + c
  {
    var q := a / n;
    assert q * n == a;
    assert (q + c) * n == a + n * c;
  }

  lemma MeanShifts(xs: seq<real>, ys: seq<real>, c: real)
    requires xs != [] && |xs| == |ys| && forall i :: 0 <= i < |xs| ==> ys[i] == xs[i] + c
    ensures Mean(ys) == Mean(xs) + c
  {
    forall i | 0 <= i < |xs| ensures ys[i] == (xs[i] - (-c)) * 1.0 {}
    SumScaled(xs, ys, -c, 1.0);
    DivideShifted(Sum(xs), |xs| as real, c);
  }

  lemma {:induction false} MapShifts(items: seq<Rollout>, c: real, mean: real, std: real)
    ensures AdvantageMap(Shifted(items, c), mean + c, std) == AdvantageMap(items, mean, std)
    decreases |items|
  {
    if items != [] {
      var n := |items| - 1;
      MapShifts(items[..n], c, mean, std);
      assert Shifted(items, c)[..n] == Shifted(items[..n], c);
    }
  }

  /** Adding a constant to every reward of a group changes no advantage. */
  lemma ShiftChangesNothing(items: seq<Rollout>, c: real, sqrt: real -> real)
    requires items != []
    ensures StatsOf(Shifted(items, c), sqrt).advantages == StatsOf(items, sqrt).advantages
    ensures StatsOf(Shifted(items, c), sqrt).std == StatsOf(items, sqrt).std
  {
    var xs, ys := Rewards(items), Rewards(Shifted(items, c));
    MeanShifts(xs, ys, c);
    assert Deviations(xs, Mean(xs)) == Deviations(ys, Mean(ys));
    MapShifts(items, c, Mean(xs), sqrt(Variance(xs)));
  }

  // ---------------------------------------------------------------- the bound

  lemma CauchyStep(s: real, q: real, x: real, m: real)
    requires m >= 1.0 && SumBounded(s, q, m)
    ensures SumBounded(s + x, q + Square(x), m + 1.0)
  {
    var t := m * x - s;
    assert t * t >= 0.0;
    assert t * t == m * m * x * x - 2.0 * m * s * x + s * s;
    assert m * (2.0 * s * x) <= m * (m * x * x + q);
    Cancel(m, 2.0 * s * x, m * x * x + q);
    assert (s + x) * (s + x) == s * s + 2.0 * s * x + x * x;
    assert (m + 1.0) * (q + x * x) == m * q + q + m * x * x + x * x;
  }

  lemma Cancel(m: real, a: real, b: real)
    requires m > 0.0 && m * a <= m * b
    ensures a <= b
  {
  }

  lemma SquaresFront(xs: seq<real>, n: nat)
    requires n <= |xs|
    ensures Squares(xs)[..n] == Squares(xs[..n])
  {
  }

  lemma SquaresWithout(xs: seq<real>, i: nat)
    requires i < |xs|
    ensures Squares(xs[..i] + xs[i + 1..]) == Squares(xs)[..i] + Squares(xs)[i + 1..]
  {
    var rest := xs[..i] + xs[i + 1..];
    var q := Squares(xs)[..i] + Squares(xs)[i + 1..];
    forall k | 0 <= k < |rest| ensures Squares(rest)[k] == q[k] {
      if k < i {
        assert rest[k] == xs[k] && q[k] == Squares(xs)[k];
      } else {
        assert rest[k] == xs[k + 1] && q[k] == Squares(xs)[k + 1];
      }
    }
  }

  /** What numbers of sum `s` and sum of squares `q` satisfy, when there are `k` of them. */
  predicate SumBounded(s: real, q: real, k: real) {
    s * s <= k * q
  }

  /** The square of a sum is at most the number of terms times the sum of squares. */
  lemma {:induction false} Cauchy(xs: seq<real>)
    ensures SumBounded(Sum(xs), Sum(Squares(xs)), |xs| as real)
    ensures Sum(Squares(xs)) >= 0.0
    decreases |xs|
  {
    if xs != [] {
      var n := |xs| - 1;
      Cauchy(xs[..n]);
      SquaresFront(xs, n);
      if n == 0 {
        assert Sum(xs[..0]) == 0.0 && Sum(Squares(xs[..0])) == 0.0;
      } else {
        CauchyStep(Sum(xs[..n]), Sum(Squares(xs[..n])), xs[n], n as real);
      }
    }
  }

  /** Taking one term out of a sum. */
  lemma {:induction false} SumWithout(xs: seq<real>, i: nat)
    requires i < |xs|
    ensures Sum(xs) == Sum(xs[..i] + xs[i + 1..]) + xs[i]
    decreases |xs|
  {
    var n := |xs| - 1;
    if i == n {
      assert xs[..i] + xs[i + 1..] == xs[..n];
    } else {
      SumWithout(xs[..n], i);
      var rest := xs[..i] + xs[i + 1..];
      assert rest[..|rest| - 1] == xs[..n][..i] + xs[..n][i + 1..];
    }
  }

  /** The square of `d` is at most `k` times what else the sum of squares `q` holds. */
  predicate AtMostRest(d: real, q: real, k: real) {
    d * d <= k * (q - d * d)
  }

  /** In a list that sums to zero, each term's square is at most n-1 times the sum of the others' squares. */
  lemma TermBound(ds: seq<real>, i: nat, k: real)
    requires i < |ds| && Sum(ds) == 0.0 && k == (|ds| - 1) as real
    ensures AtMostRest(ds[i], Sum(Squares(ds)), k)
  {
    var rest := ds[..i] + ds[i + 1..];
    RestSums(ds, i);
    CauchyFor(rest, k);
    TermArithmetic(ds[i], Sum(rest), Sum(Squares(rest)), Sum(Squares(ds)), k);
  }

  lemma CauchyFor(xs: seq<real>, k: real)
    requires k == |xs| as real
    ensures SumBounded(Sum(xs), Sum(Squares(xs)), k)
  {
    Cauchy(xs);
  }

  lemma RestSums(ds: seq<real>, i: nat)
    requires i < |ds| && Sum(ds) == 0.0
    ensures var rest := ds[..i] + ds[i + 1..];
            |rest| == |ds| - 1 && Sum(rest) == -ds[i] && Sum(Squares(rest)) == Sum(Squares(ds)) - Square(ds[i])
  {
    SumWithout(ds, i);
    SumWithout(Squares(ds), i);
    SquaresWithout(ds, i);
  }

  lemma TermArithmetic(d: real, s: real, rest: real, q: real, k: real)
    requires s == -d && SumBounded(s, rest, k) && rest == q - Square(d)
    ensures AtMostRest(d, q, k)
  {
    assert s * s == d * d;
  }

  /** A deviation's square is at most n-1 times the variance. */
  lemma DeviationBound(xs: seq<real>, i: nat)
    requires i < |xs|
    ensures var d := xs[i] - Mean(xs); d * d <= (|xs| - 1) as real * Variance(xs)
  {
    var ds := Deviations(xs, Mean(xs));
    DeviationsCancel(xs);
    TermBound(ds, i, (|xs| - 1) as real);
    BoundArithmetic(ds[i], Sum(Squares(ds)), |xs| as real);
  }

  lemma BoundArithmetic(d: real, q: real, n: real)
    requires n >= 1.0 && AtMostRest(d, q, n - 1.0)
    ensures d * d <= (n - 1.0) * (q / n)
  {
    var dd := d * d;
    assert n * dd <= (n - 1.0) * q;
    assert (n - 1.0) * (q / n) == ((n - 1.0) * q) / n;
    assert n * (((n - 1.0) * q) / n) == (n - 1.0) * q;
    Cancel(n, dd, ((n - 1.0) * q) / n);
  }

  lemma CancelStrictly(m: real, a: real, b: real)
    requires m > 0.0 && m * a < m * b
    ensures a < b
  {
  }

  /** Dividing by more than the deviation keeps the bound, and makes it strict. */
  lemma ScaledBound(d: real, std: real, k: real)
    requires std > EPSILON && d * d <= k * (std * std) && k >= 0.0
    ensures Square(d / (std + EPSILON)) <= k
    ensures k > 0.0 ==> Square(d / (std + EPSILON)) < k
  {
    var s := std + EPSILON;
    var a := d / s;
    assert (a * a) * (s * s) == d * d by {
      assert a * s == d;
      assert (a * a) * (s * s) == (a * s) * (a * s);
    }
    assert std * std < s * s;
    if k > 0.0 {
      assert k * (std * std) < k * (s * s);
      assert (s * s) * (a * a) < (s * s) * k;
      CancelStrictly(s * s, a * a, k);
    } else {
      assert (s * s) * (a * a) <= (s * s) * k;
      Cancel(s * s, a * a, k);
    }
  }

  lemma VarianceIsSquare(xs: seq<real>, sqrt: real -> real)
    requires SquareRoot(sqrt) && xs != []
    ensures Variance(xs) >= 0.0
    ensures var std := sqrt(Variance(xs)); std >= 0.0 && std * std == Variance(xs)
  {
    Cauchy(Deviations(xs, Mean(xs)));
    assert Variance(xs) >= 0.0;
  }

  /**
   * Every squared advantage in a group of n is at most n-1, and less than that when the group has two rollouts or more.
   */
  lemma AdvantageIsBounded(items: seq<Rollout>, sqrt: real -> real, i: nat)
    requires SquareRoot(sqrt) && i < |items| && DistinctIds(items)
    ensures items[i].id in StatsOf(items, sqrt).advantages
    ensures Square(StatsOf(items, sqrt).advantages[items[i].id]) <= (|items| - 1) as real
    ensures |items| > 1 ==> Square(StatsOf(items, sqrt).advantages[items[i].id]) < (|items| - 1) as real
  {
    var xs, stats := Rewards(items), StatsOf(items, sqrt);
    MapHasAll(items, stats.mean, stats.std);
    BoundedValue(xs, stats.std, sqrt, i);
  }

  lemma BoundedValue(xs: seq<real>, std: real, sqrt: real -> real, i: nat)
    requires SquareRoot(sqrt) && i < |xs| && std == sqrt(Variance(xs))
    ensures Square(Advantage(xs[i], Mean(xs), std)) <= (|xs| - 1) as real
    ensures |xs| > 1 ==> Square(Advantage(xs[i], Mean(xs), std)) < (|xs| - 1) as real
  {
    if std > EPSILON {
      DeviationBound(xs, i);
      VarianceIsSquare(xs, sqrt);
      ScaledBound(xs[i] - Mean(xs), std, (|xs| - 1) as real);
    }
  }

  // ---------------------------------------------------------------- the bound is the best one

  /** One rewarded rollout among n. */
  function OneHot(n: nat, reward: real): (xs: seq<real>)
    requires n > 0
    ensures |xs| == n && xs[0] == reward && forall i :: 0 < i < n ==> xs[i] == 0.0
  {
    seq(n, i requires 0 <= i < n => if i == 0 then reward else 0.0)
  }

  lemma {:induction false} SumOfFirstAndRest(xs: seq<real>, first: real, rest: real)
    requires xs != [] && xs[0] == first && forall i :: 0 < i < |xs| ==> xs[i] == rest
    ensures Sum(xs) == first + (|xs| - 1) as real * rest
    decreases |xs|
  {
    var n := |xs| - 1;
    if n == 0 {
      assert xs[..0] == [];
    } else {
      SumOfFirstAndRest(xs[..n], first, rest);
    }
  }

  lemma OneHotMean(n: nat, reward: real)
    requires n > 0
    ensures Mean(OneHot(n, reward)) == reward / n as real
  {
    SumOfFirstAndRest(OneHot(n, reward), reward, 0.0);
  }

  lemma OneHotSquares(xs: seq<real>, reward: real, m: real)
    requires xs != [] && xs[0] == reward && forall i :: 0 < i < |xs| ==> xs[i] == 0.0
    ensures Sum(Squares(Deviations(xs, m))) == Square(reward - m) + (|xs| - 1) as real * Square(0.0 - m)
  {
    SumOfFirstAndRest(Squares(Deviations(xs, m)), Square(reward - m), Square(0.0 - m));
  }

  lemma OneHotVariance(n: nat, reward: real)
    requires n > 0
    ensures Variance(OneHot(n, reward)) == (n - 1) as real * Square(reward / n as real)
  {
    var xs, m, k := OneHot(n, reward), reward / n as real, n as real;
    OneHotMean(n, reward);
    OneHotSquares(xs, reward, m);
    assert (n - 1) as real == k - 1.0;
    OneHotArithmetic(reward, m, k, Sum(Squares(Deviations(xs, m))));
  }

  lemma OneHotArithmetic(reward: real, m: real, k: real, q: real)
    requires k >= 1.0 && m == reward / k && q == Square(reward - m) + (k - 1.0) * Square(0.0 - m)
    ensures q / k == (k - 1.0) * Square(m)
  {
    var mm := m * m;
    assert reward == k * m;
    assert Square(reward - m) == Square((k - 1.0) * m) == (k - 1.0) * (k - 1.0) * mm;
    assert Square(0.0 - m) == mm;
    var p := (k - 1.0) * mm;
    assert q == (k - 1.0) * p + p == k * p;
  }

  /** The deviation bound is reached: that of the only rewarded rollout squares to exactly n-1 times the variance. */
  lemma DeviationBoundIsSharp(n: nat, reward: real)
    requires n > 0
    ensures var xs := OneHot(n, reward); Square(xs[0] - Mean(xs)) == (n - 1) as real * Variance(xs)
  {
    OneHotMean(n, reward);
    OneHotVariance(n, reward);
    var m, k := reward / n as real, (n - 1) as real;
    assert reward - m == k * m;
    SharpArithmetic(k, m);
  }

  lemma SharpArithmetic(k: real, m: real)
    ensures Square(k * m) == k * (k * Square(m))
  {
  }

  /** `n` rollouts with distinct ids, the first of which is rewarded. */
  function Rewarded(n: nat, reward: real): (items: seq<Rollout>)
    requires n > 0
    ensures |items| == n && Rewards(items) == OneHot(n, reward) && DistinctIds(items)
  {
    var items := seq(n, i requires 0 <= i < n => Rollout(Repeated(i), OneHot(n, reward)[i]));
    assert Rewards(items) == OneHot(n, reward);
    assert forall i :: 0 <= i < n ==> |items[i].id| == i;
    items
  }

  function Repeated(n: nat): (s: string)
    ensures |s| == n
  {
    seq(n, _ => 'x')
  }

  /** A deviation that is large enough against epsilon loses less than the share `gap` by it. */
  lemma LargeDeviation(s: real, gap: real)
    requires gap > 0.0 && gap * s >= 2.0 * EPSILON + gap && s >= 1.0
    ensures (1.0 - gap) * Square(s + EPSILON) < Square(s)
  {
    assert Square(s + EPSILON) == Square(s) + (2.0 * EPSILON * s + EPSILON * EPSILON);
    var extra := 2.0 * EPSILON * s + EPSILON * EPSILON;
    assert gap * Square(s) == (gap * s) * s >= (2.0 * EPSILON + gap) * s == 2.0 * EPSILON * s + gap * s;
    assert gap * s > EPSILON * EPSILON;
    assert gap * extra >= 0.0;
    assert (1.0 - gap) * Square(s + EPSILON) == Square(s) - gap * Square(s) + extra - gap * extra;
  }

  lemma RootAtLeast(std: real, m: real)
    requires std >= 0.0 && m > 0.0 && std * std >= m * m
    ensures std >= m
  {
    assert (std + m) * (m - std) == m * m - std * std;
    Cancel(std + m, m - std, 0.0);
  }

  lemma DeviationIsLarge(k: real, m: real, std: real, gap: real)
    requires k >= 1.0 && gap > 0.0 && gap * m == 2.0 * EPSILON + gap
    requires std >= 0.0 && std * std == k * Square(m)
    ensures std >= 1.0 && gap * std >= 2.0 * EPSILON + gap
  {
    Cancel(gap, 1.0, m);
    var mm := m * m;
    assert k * mm >= mm;
    RootAtLeast(std, m);
    assert gap * (std - m) >= 0.0;
  }

  lemma QuotientExceeds(d: real, s: real, q: real, k: real, share: real)
    requires s > 0.0 && k > 0.0 && Square(d) == k * q && share * Square(s) < q
    ensures share * k < Square(d / s)
  {
    var a := d / s;
    assert Square(a) * Square(s) == Square(d) by {
      assert a * s == d;
      assert Square(a) * Square(s) == (a * s) * (a * s);
    }
    assert k * (share * Square(s)) < k * q;
    assert Square(s) * (share * k) < Square(s) * Square(a);
    CancelStrictly(Square(s), share * k, Square(a));
  }

  /** The advantage of a rollout whose squared deviation is `k` times the variance, when the variance is large. */
  lemma LargeAdvantage(d: real, std: real, k: real, gap: real)
    requires gap > 0.0 && k >= 1.0 && std >= 1.0 && gap * std >= 2.0 * EPSILON + gap
    requires Square(d) == k * Square(std)
    ensures (1.0 - gap) * k < Square(d / (std + EPSILON))
  {
    LargeDeviation(std, gap);
    QuotientExceeds(d, std + EPSILON, Square(std), k, 1.0 - gap);
  }

  lemma GapBelow(bound: real, k: real) returns (gap: real)
    requires k > 0.0 && bound < k
    ensures gap > 0.0 && (1.0 - gap) * k == bound
  {
    var share := bound / k;
    assert share * k == bound;
    CancelStrictly(k, share, 1.0);
    gap := 1.0 - share;
  }

  lemma FirstAdvantage(items: seq<Rollout>, xs: seq<real>, sqrt: real -> real)
    requires items != [] && DistinctIds(items) && Rewards(items) == xs
    ensures items[0].id in StatsOf(items, sqrt).advantages
    ensures StatsOf(items, sqrt).advantages[items[0].id] == Advantage(xs[0], Mean(xs), sqrt(Variance(xs)))
  {
    MapHasAll(items, Mean(xs), sqrt(Variance(xs)));
  }

  /** A list whose first entry deviates by `k * m` where the variance is `k * m * m`. */
  ghost predicate Peaked(xs: seq<real>, k: real, m: real) {
    xs != [] && Mean(xs) == m && Variance(xs) == k * Square(m) && xs[0] - m == k * m
  }

  lemma PeakSquares(xs: seq<real>, k: real, m: real, std: real)
    requires Peaked(xs, k, m) && std * std == Variance(xs)
    ensures Square(xs[0] - Mean(xs)) == k * Square(std)
  {
    SharpArithmetic(k, m);
  }

  lemma PeakAdvantage(xs: seq<real>, k: real, m: real, gap: real, std: real)
    requires k >= 1.0 && gap > 0.0 && gap * m == 2.0 * EPSILON + gap
    requires Peaked(xs, k, m) && std >= 0.0 && std * std == Variance(xs)
    ensures Square(Advantage(xs[0], Mean(xs), std)) > (1.0 - gap) * k
  {
    DeviationIsLarge(k, m, std, gap);
    PeakSquares(xs, k, m, std);
    LargeAdvantage(xs[0] - Mean(xs), std, k, gap);
  }

  lemma OneHotIsPeaked(n: nat, m: real)
    requires n > 0
    ensures Peaked(OneHot(n, n as real * m), (n - 1) as real, m)
  {
    OneHotMean(n, n as real * m);
    OneHotVariance(n, n as real * m);
    assert n as real * m / n as real == m;
    assert n as real == (n - 1) as real + 1.0;
  }

  /** The advantage bound n-1 is the least one: below it, every bound is exceeded by some group of n. */
  lemma AdvantageBoundIsLeast(n: nat, bound: real, sqrt: real -> real) returns (items: seq<Rollout>)
    requires SquareRoot(sqrt) && n > 1 && bound < (n - 1) as real
    ensures |items| == n && DistinctIds(items) && items[0].id in StatsOf(items, sqrt).advantages
    ensures Square(StatsOf(items, sqrt).advantages[items[0].id]) > bound
  {
    var k := (n - 1) as real;
    var gap := GapBelow(bound, k);
    var m := (2.0 * EPSILON + gap) / gap;
    var reward := n as real * m;
    items := Rewarded(n, reward);
    var xs := Rewards(items);
    OneHotIsPeaked(n, m);
    VarianceIsSquare(xs, sqrt);
    PeakAdvantage(xs, k, m, gap, sqrt(Variance(xs)));
    FirstAdvantage(items, xs, sqrt);
  }
}
