/**
 * Length-bucketed batching of the LoRA trainers: left truncation of the rows, and greedy packing
 * under a padded-token budget. Greedy packing is proved optimal among ALL partitions.
 */
module Batching {
  import opened Ordering

  // ---------------------------------------------------------------- truncation

  datatype Row = Row(prompt: seq<int>, completion: seq<int>)
  datatype Example = Example(ids: seq<int>, labels: seq<int>)

  const IGNORED: int := -100

  predicate Trainable(r: Row, maxLen: int) {
    r.prompt != [] && r.completion != [] && |r.completion| < maxLen
  }

  /** What a trainable row becomes: the longest prompt suffix that fits, then the whole completion. */
  ghost predicate Truncates(r: Row, maxLen: int, e: Example) {
    exists k :: KeepsSuffix(r, maxLen, e, k)
  }

  ghost predicate KeepsSuffix(r: Row, maxLen: int, e: Example, k: int) {
    && 0 <= k < |r.prompt|
    && e.ids == r.prompt[k..] + r.completion
    && |e.labels| == |e.ids| <= maxLen
    && (forall i :: 0 <= i < |r.prompt| - k ==> e.labels[i] == IGNORED)
    && e.labels[|r.prompt| - k..] == r.completion
    && (k == 0 || |e.ids| == maxLen)
  }

  function TrainableRows(rows: seq<Row>, maxLen: int): seq<Row> {
    if rows == [] then []
    else TrainableRows(rows[..|rows| - 1], maxLen)
         + (if Trainable(rows[|rows| - 1], maxLen) then [rows[|rows| - 1]] else [])
  }

  method LoadExamples(rows: seq<Row>, maxLen: int) returns (out: seq<Example>, dropped: nat)
    ensures |out| + dropped == |rows|
    ensures |out| == |TrainableRows(rows, maxLen)|
    ensures forall i :: 0 <= i < |out| ==> Truncates(TrainableRows(rows, maxLen)[i], maxLen, out[i])
  {
    out, dropped := [], 0;
    for n := 0 to |rows|
      invariant |out| + dropped == n
      invariant |out| == |TrainableRows(rows[..n], maxLen)|
      invariant forall i :: 0 <= i < |out| ==> Truncates(TrainableRows(rows[..n], maxLen)[i], maxLen, out[i])
    {
      assert rows[..n + 1][..n] == rows[..n];
      var p, c := rows[n].prompt, rows[n].completion;
      if p == [] || c == [] {
        dropped := dropped + 1;
        continue;
      }
      ghost var k := 0;
      if |p| + |c| > maxLen {
        var overflow := |p| + |c| - maxLen;
        p := if overflow < |p| then p[overflow..] else [];
        if p == [] {
          dropped := dropped + 1;
          continue;
        }
        k := overflow;
      }
      var e := Example(p + c, seq(|p|, _ => IGNORED) + c);
      assert KeepsSuffix(rows[n], maxLen, e, k);
      out := out + [e];
    }
    assert rows[..|rows|] == rows;
  }

  // ---------------------------------------------------------------- greedy packing

  function LengthOf(lens: seq<nat>, i: nat): nat {
    if i < |lens| then lens[i] else 0
  }

  function Indices(n: nat): (s: seq<nat>)
    ensures |s| == n && forall i :: i in s <==> 0 <= i < n
  {
    if n == 0 then [] else Indices(n - 1) + [n - 1]
  }

  function ByLength(lens: seq<nat>): (nat, nat) -> bool {
    (i: nat, j: nat) => LengthOf(lens, i) <= LengthOf(lens, j)
  }

  /** The indices sorted by length, ties in index order. */
  function LengthOrder(lens: seq<nat>): seq<nat> {
    Sort(Indices(|lens|), ByLength(lens))
  }

  function Flatten(batches: seq<seq<nat>>): seq<nat> {
    if batches == [] then [] else Flatten(batches[..|batches| - 1]) + batches[|batches| - 1]
  }

  /** The longest member of a batch. */
  function Width(lens: seq<nat>, batch: seq<nat>): (w: nat)
    ensures forall i :: i in batch ==> LengthOf(lens, i) <= w
    ensures batch != [] ==> exists i :: i in batch && LengthOf(lens, i) == w
  {
    if batch == [] then 0
    else
      var rest := Width(lens, batch[1..]);
      assert batch == [batch[0]] + batch[1..];
      var w := if LengthOf(lens, batch[0]) < rest then rest else LengthOf(lens, batch[0]);
      assert LengthOf(lens, batch[0]) == w || (batch[1..] != [] && rest == w);
      w
  }

  /** A batch the budget allows: one row, or padded size within the budget. */
  predicate Fits(lens: seq<nat>, budget: int, batch: seq<nat>) {
    batch != [] && (|batch| == 1 || Width(lens, batch) * |batch| <= budget)
  }

  /** `next` does not fit behind `batch`. */
  predicate Blocked(lens: seq<nat>, budget: int, batch: seq<nat>, next: nat) {
    LengthOf(lens, next) * (|batch| + 1) > budget
  }

  /** Every batch was closed because the first row of its successor did not fit behind it. */
  ghost predicate Chained(lens: seq<nat>, budget: int, batches: seq<seq<nat>>) {
    && (forall j :: 0 <= j < |batches| ==> Fits(lens, budget, batches[j]))
    && (forall j :: 0 < j < |batches| ==> Blocked(lens, budget, batches[j - 1], batches[j][0]))
  }

  /** Sorted packing in which every batch was closed because its successor's first row did not fit. */
  ghost predicate Greedy(lens: seq<nat>, budget: int, batches: seq<seq<nat>>) {
    && Flatten(batches) == LengthOrder(lens)
    && Chained(lens, budget, batches)
  }

  /** Any way to split the row indices into allowed batches, in any order, contiguous or not. */
  ghost predicate Partition(lens: seq<nat>, budget: int, parts: seq<set<nat>>) {
    && Members(parts) == Range(|lens|)
    && Packable(lens, budget, parts)
  }

  ghost predicate Packable(lens: seq<nat>, budget: int, parts: seq<set<nat>>) {
    && (forall k :: 0 <= k < |parts| ==> PartFits(lens, budget, parts[k]))
    && (forall k, l :: 0 <= k < l < |parts| ==> parts[k] !! parts[l])
  }

  ghost predicate PartFits(lens: seq<nat>, budget: int, part: set<nat>) {
    && part != {}
    && (forall i :: i in part ==> i < |lens|)
    && (|part| == 1 || forall i :: i in part ==> lens[i] * |part| <= budget)
  }

  ghost function Range(n: nat): set<nat> {
    set i | i in Indices(n)
  }

  ghost function Members(parts: seq<set<nat>>): set<nat> {
    if parts == [] then {} else parts[0] + Members(parts[1..])
  }

  lemma {:induction false} MembersAre(parts: seq<set<nat>>, i: nat)
    ensures i in Members(parts) <==> exists k :: 0 <= k < |parts| && i in parts[k]
  {
    if parts != [] {
      MembersAre(parts[1..], i);
      if k :| 0 <= k < |parts| && i in parts[k] {
        assert k > 0 ==> i in parts[1..][k - 1];
      }
      if k :| 0 <= k < |parts[1..]| && i in parts[1..][k] {
        assert i in parts[k + 1];
      }
    }
  }

  /** The loop invariant: the closed batches, then the open one, hold the rows `done` so far. */
  ghost predicate Packing(lens: seq<nat>, budget: int, done: seq<nat>, batches: seq<seq<nat>>, current: seq<nat>) {
    && Flatten(batches) + current == done
    && (if current == [] then batches == [] else Chained(lens, budget, batches + [current]))
  }

  method MakeBatches(lens: seq<nat>, budget: int) returns (batches: seq<seq<nat>>)
    ensures Greedy(lens, budget, batches)
    ensures forall parts :: Partition(lens, budget, parts) ==> |batches| <= |parts|
  {
    var order := LengthOrder(lens);
    batches := [];
    var current: seq<nat> := [];
    for k := 0 to |order|
      invariant Packing(lens, budget, order[..k], batches, current)
    {
      var i := order[k];
      NextRowIsWidest(lens, k, Flatten(batches), current);
      PackNext(lens, budget, order[..k], batches, current, i);
      NextPrefix(order, k);
      var n := LengthOf(lens, i);
      var width := if current != [] && n < Width(lens, current) then Width(lens, current) else n;
      if current != [] && width * (|current| + 1) > budget {
        batches := batches + [current];
        current := [i];
      } else {
        current := current + [i];
      }
    }
    PackEnd(lens, budget, batches, current);
    if current != [] {
      batches := batches + [current];
    }
  }

  /** After the loop the open batch is closed too. */
  lemma PackEnd(lens: seq<nat>, budget: int, batches: seq<seq<nat>>, current: seq<nat>)
    requires Packing(lens, budget, LengthOrder(lens)[..|LengthOrder(lens)|], batches, current)
    ensures var all := if current == [] then batches else batches + [current];
            Greedy(lens, budget, all) && forall parts :: Partition(lens, budget, parts) ==> |all| <= |parts|
  {
    var order := LengthOrder(lens);
    assert order[..|order|] == order;
    var all := if current == [] then batches else batches + [current];
    if current != [] { FlattenAppend(batches, current); }
    assert Flatten(all) == order;
    GreedyIsOptimalForAll(lens, budget, all);
  }

  lemma PackNext(lens: seq<nat>, budget: int, done: seq<nat>, batches: seq<seq<nat>>, current: seq<nat>, i: nat)
    requires Packing(lens, budget, done, batches, current)
    requires Width(lens, current + [i]) == LengthOf(lens, i)
    ensures if current != [] && LengthOf(lens, i) * (|current| + 1) > budget
            then Packing(lens, budget, done + [i], batches + [current], [i])
            else Packing(lens, budget, done + [i], batches, current + [i])
  {
    FlattenAppend(batches, current);
    assert Flatten(batches) + (current + [i]) == done + [i];
    if current == [] {
      assert batches + [[i]] == [[i]];
    } else if LengthOf(lens, i) * (|current| + 1) > budget {
      ChainAppend(lens, budget, batches + [current], [i]);
    } else {
      ChainExtend(lens, budget, batches, current, i);
    }
  }

  lemma ChainAppend(lens: seq<nat>, budget: int, batches: seq<seq<nat>>, next: seq<nat>)
    requires Chained(lens, budget, batches) && batches != []
    requires Fits(lens, budget, next) && Blocked(lens, budget, batches[|batches| - 1], next[0])
    ensures Chained(lens, budget, batches + [next])
  {
  }

  lemma ChainExtend(lens: seq<nat>, budget: int, batches: seq<seq<nat>>, current: seq<nat>, i: nat)
    requires Chained(lens, budget, batches + [current])
    requires Fits(lens, budget, current + [i]) && current != []
    ensures Chained(lens, budget, batches + [current + [i]])
  {
    var before, after := batches + [current], batches + [current + [i]];
    forall j | 0 <= j < |after| ensures Fits(lens, budget, after[j]) {
      assert Fits(lens, budget, before[j]);
    }
    forall j | 0 < j < |after| ensures Blocked(lens, budget, after[j - 1], after[j][0]) {
      assert Blocked(lens, budget, before[j - 1], before[j][0]);
    }
  }

  lemma NextRowIsWidest(lens: seq<nat>, k: nat, closed: seq<nat>, current: seq<nat>)
    requires k < |LengthOrder(lens)| && closed + current == LengthOrder(lens)[..k]
    ensures current != [] ==> Width(lens, current) <= LengthOf(lens, LengthOrder(lens)[k])
    ensures Width(lens, current + [LengthOrder(lens)[k]]) == LengthOf(lens, LengthOrder(lens)[k])
  {
    LengthOrderIsSorted(lens);
    var order := LengthOrder(lens);
    forall x | x in current ensures LengthOf(lens, x) <= LengthOf(lens, order[k]) {
      assert x in closed + current;
      var p :| 0 <= p < k && order[p] == x;
    }
    var w := Width(lens, current + [order[k]]);
    assert order[k] in current + [order[k]];
    var x :| x in current + [order[k]] && LengthOf(lens, x) == w;
  }

  lemma FlattenAppend(batches: seq<seq<nat>>, last: seq<nat>)
    ensures Flatten(batches + [last]) == Flatten(batches) + last
  {
    assert (batches + [last])[..|batches|] == batches;
  }

  lemma LengthOrderIsSorted(lens: seq<nat>)
    ensures forall p, q :: 0 <= p < q < |LengthOrder(lens)|
              ==> LengthOf(lens, LengthOrder(lens)[p]) <= LengthOf(lens, LengthOrder(lens)[q])
    ensures multiset(LengthOrder(lens)) == multiset(Indices(|lens|))
    ensures |LengthOrder(lens)| == |lens|
    ensures forall i :: i in LengthOrder(lens) <==> 0 <= i < |lens|
  {
    var le := ByLength(lens);
    var all := Indices(|lens|);
    SortIsSortedPermutation(all, le);
    forall p, q | 0 <= p < q < |LengthOrder(lens)|
      ensures LengthOf(lens, LengthOrder(lens)[p]) <= LengthOf(lens, LengthOrder(lens)[q])
    {
      assert le(LengthOrder(lens)[p], LengthOrder(lens)[q]);
    }
  }

  /** How many rows the first `m` batches hold. */
  ghost function Reach(batches: seq<seq<nat>>, m: nat): nat
    requires m <= |batches|
  {
    |Flatten(batches[..m])|
  }

  lemma {:induction false} ReachSteps(batches: seq<seq<nat>>, m: nat)
    requires m < |batches|
    ensures Reach(batches, m + 1) == Reach(batches, m) + |batches[m]|
    ensures Reach(batches, m + 1) <= |Flatten(batches)|
    ensures batches[m] != [] ==> Flatten(batches)[Reach(batches, m)] == batches[m][0]
    decreases |batches|
  {
    assert batches[..m + 1][..m] == batches[..m];
    var last := |batches| - 1;
    if m == last {
      assert batches[..m + 1] == batches;
    } else {
      ReachSteps(batches[..last], m);
      assert batches[..last][..m] == batches[..m] && batches[..last][..m + 1] == batches[..m + 1];
    }
  }

  /** `b + 1` or more rows no longer than `bound` put a row no longer than `bound` at sorted position `b`. */
  lemma ManyShortRows(lens: seq<nat>, rows: set<nat>, bound: nat, b: nat)
    requires forall i :: i in rows ==> i < |lens| && lens[i] <= bound
    requires b < |rows|
    ensures b < |LengthOrder(lens)| && LengthOf(lens, LengthOrder(lens)[b]) <= bound
  {
    LengthOrderIsSorted(lens);
    var order := LengthOrder(lens);
    var cut := if b < |lens| then b else |lens|;
    if b >= |lens| || LengthOf(lens, order[b]) > bound {
      forall i | i in rows ensures i in order[..cut] {
        assert i in order;
        var p :| 0 <= p < |order| && order[p] == i;
        assert p >= cut && p != b ==> LengthOf(lens, order[b]) <= LengthOf(lens, order[p]);
      }
      PrefixHoldsFew(order[..cut], rows);
      assert false;
    }
  }

  lemma {:induction false} PrefixHoldsFew(s: seq<nat>, rows: set<nat>)
    requires forall i :: i in rows ==> i in s
    ensures |rows| <= |s|
  {
    if s == [] {
      assert rows == {};
    } else {
      var rest := rows - {s[0]};
      forall i | i in rest ensures i in s[1..] {
        assert s == [s[0]] + s[1..];
      }
      PrefixHoldsFew(s[1..], rest);
      if s[0] in rows {
        assert rows == rest + {s[0]};
      } else {
        assert rows == rest;
      }
    }
  }

  /** A longest row of a non-empty set. */
  lemma {:induction false} LongestOf(lens: seq<nat>, rows: set<nat>) returns (e: nat)
    requires rows != {}
    ensures e in rows && forall i :: i in rows ==> LengthOf(lens, i) <= LengthOf(lens, e)
    decreases |rows|
  {
    e :| e in rows;
    if rows != {e} {
      var other := LongestOf(lens, rows - {e});
      if LengthOf(lens, e) < LengthOf(lens, other) { e := other; }
    }
  }

  lemma {:induction false} RemovePart(lens: seq<nat>, budget: int, parts: seq<set<nat>>, k: nat)
    requires k < |parts| && Packable(lens, budget, parts)
    ensures Packable(lens, budget, parts[..k] + parts[k + 1..])
    ensures Members(parts) == Members(parts[..k] + parts[k + 1..]) + parts[k]
  {
    var rest := parts[..k] + parts[k + 1..];
    forall p | 0 <= p < |rest| ensures rest[p] == parts[if p < k then p else p + 1] {
    }
    forall i ensures i in Members(rest) ==> i in Members(parts) {
      if i in Members(rest) {
        MembersAre(rest, i);
        var p :| 0 <= p < |rest| && i in rest[p];
        assert i in parts[if p < k then p else p + 1];
        MembersAre(parts, i);
      }
    }
    forall i ensures i in Members(parts) ==> i in Members(rest) || i in parts[k] {
      if i in Members(parts) && i !in parts[k] {
        MembersAre(parts, i);
        var p :| 0 <= p < |parts| && i in parts[p];
        assert i in rest[if p < k then p else p - 1];
        MembersAre(rest, i);
      }
    }
    forall i ensures i in parts[k] ==> i in Members(parts) {
      MembersAre(parts, i);
    }
  }

  /** Whatever rows `m` disjoint allowed parts cover, the first `m` greedy batches cover at least as many. */
  lemma {:induction false} GreedyStaysAhead(lens: seq<nat>, budget: int, batches: seq<seq<nat>>, parts: seq<set<nat>>)
    requires Greedy(lens, budget, batches) && Packable(lens, budget, parts)
    requires |parts| <= |batches|
    ensures |Members(parts)| <= Reach(batches, |parts|)
    decreases |parts|
  {
    var m := |parts|;
    if m == 0 {
      assert Members(parts) == {};
    } else {
      var k, e := LongestPart(lens, budget, parts);
      var rest := parts[..k] + parts[k + 1..];
      RemovePart(lens, budget, parts, k);
      GreedyStaysAhead(lens, budget, batches, rest);
      StayAheadByOnePart(lens, budget, batches, m, Members(parts), Members(rest), parts[k], e);
    }
  }

  lemma StayAheadByOnePart(lens: seq<nat>, budget: int, batches: seq<seq<nat>>, m: nat,
                           rows: set<nat>, others: set<nat>, part: set<nat>, e: nat)
    requires Greedy(lens, budget, batches) && 0 < m <= |batches|
    requires |others| <= Reach(batches, m - 1) && rows == others + part
    requires PartFits(lens, budget, part) && e in part
    requires forall i :: i in rows ==> i < |lens| && lens[i] <= lens[e]
    ensures |rows| <= Reach(batches, m)
  {
    assert |rows| <= |others| + |part| by {
      assert rows == others + (part - others);
      assert part == (part - others) + (part * others);
    }
    ReachSteps(batches, m - 1);
    var b := Reach(batches, m);
    if |rows| > b {
      ManyShortRows(lens, rows, lens[e], b);
      NextBatchExists(batches, m);
      ReachSteps(batches, m);
      PartNoLarger(lens, budget, batches, m, part, e);
    }
  }

  lemma LongestPart(lens: seq<nat>, budget: int, parts: seq<set<nat>>) returns (k: nat, e: nat)
    requires parts != [] && Packable(lens, budget, parts)
    ensures k < |parts| && e in parts[k] && e < |lens|
    ensures forall i :: i in Members(parts) ==> i < |lens| && lens[i] <= lens[e]
  {
    var some :| some in parts[0];
    assert some in Members(parts);
    e := LongestOf(lens, Members(parts));
    forall i | i in Members(parts) ensures i < |lens| {
      MembersAre(parts, i);
    }
    MembersAre(parts, e);
    k :| 0 <= k < |parts| && e in parts[k];
  }

  /** A part whose longest row is at least the row that closed greedy batch `m - 1` has no more rows than it. */
  lemma PartNoLarger(lens: seq<nat>, budget: int, batches: seq<seq<nat>>, m: nat, part: set<nat>, e: nat)
    requires Chained(lens, budget, batches) && 0 < m < |batches|
    requires PartFits(lens, budget, part) && e in part
    requires LengthOf(lens, batches[m][0]) <= lens[e]
    ensures |part| <= |batches[m - 1]|
  {
    assert Blocked(lens, budget, batches[m - 1], batches[m][0]);
    assert Fits(lens, budget, batches[m - 1]);
    if |part| > |batches[m - 1]| {
      ProductMonotone(LengthOf(lens, batches[m][0]), lens[e], |batches[m - 1]| + 1, |part|);
    }
  }

  lemma ProductMonotone(a: nat, b: nat, c: nat, d: nat)
    requires a <= b && c <= d
    ensures a * c <= b * d
  {
    assert a * c <= b * c <= b * d;
  }

  lemma NextBatchExists(batches: seq<seq<nat>>, m: nat)
    requires m <= |batches| && Reach(batches, m) < |Flatten(batches)|
    ensures m < |batches|
  {
    assert batches[..|batches|] == batches;
  }

  /** No partition into allowed batches has fewer batches than the greedy packing. */
  lemma GreedyIsOptimal(lens: seq<nat>, budget: int, batches: seq<seq<nat>>, parts: seq<set<nat>>)
    requires Greedy(lens, budget, batches) && Partition(lens, budget, parts)
    ensures |batches| <= |parts|
  {
    if |parts| < |batches| {
      GreedyStaysAhead(lens, budget, batches, parts);
      ReachSteps(batches, |parts|);
      LengthOrderIsSorted(lens);
      RangeSize(|lens|);
      assert false;
    }
  }

  lemma GreedyIsOptimalForAll(lens: seq<nat>, budget: int, batches: seq<seq<nat>>)
    requires Greedy(lens, budget, batches)
    ensures forall parts :: Partition(lens, budget, parts) ==> |batches| <= |parts|
  {
    forall parts | Partition(lens, budget, parts) ensures |batches| <= |parts| {
      GreedyIsOptimal(lens, budget, batches, parts);
    }
  }

  lemma {:induction false} RangeSize(n: nat)
    ensures |Range(n)| == n
  {
    if n > 0 {
      RangeSize(n - 1);
      assert Range(n) == Range(n - 1) + {n - 1};
    }
  }

  lemma {:induction false} FlattenMember(batches: seq<seq<nat>>, j: nat, x: nat)
    requires j < |batches| && x in batches[j]
    ensures x in Flatten(batches)
  {
    var last := |batches| - 1;
    if j < last {
      FlattenMember(batches[..last], j, x);
    }
  }

  ghost function Elements(s: seq<nat>): set<nat> {
    set i | i in s
  }

  ghost function Parts(batches: seq<seq<nat>>): (parts: seq<set<nat>>)
    ensures |parts| == |batches| && forall j :: 0 <= j < |parts| ==> parts[j] == Elements(batches[j])
  {
    seq(|batches|, j requires 0 <= j < |batches| => Elements(batches[j]))
  }

  /** The greedy packing is itself such a partition, so its batch count is exactly the minimum. */
  lemma GreedyIsAPartition(lens: seq<nat>, budget: int, batches: seq<seq<nat>>)
    requires Greedy(lens, budget, batches)
    ensures multiset(Flatten(batches)) == multiset(Indices(|lens|))
    ensures Partition(lens, budget, Parts(batches))
  {
    LengthOrderIsSorted(lens);
    OrderHasNoRepeats(lens);
    var parts := Parts(batches);
    forall i ensures i in Members(parts) <==> i in Range(|lens|) {
      MembersAre(parts, i);
      if i in LengthOrder(lens) {
        FlattenCovers(batches, i);
        var j :| 0 <= j < |batches| && i in batches[j];
        assert i in parts[j];
      }
      if i in Members(parts) {
        var j :| 0 <= j < |parts| && i in parts[j];
        FlattenMember(batches, j, i);
      }
    }
    forall k | 0 <= k < |parts| ensures PartFits(lens, budget, parts[k]) {
      GreedyPartFits(lens, budget, batches, k);
    }
    forall k, l | 0 <= k < l < |parts| ensures parts[k] !! parts[l] {
      BatchesHaveNoRepeats(batches, k, l);
    }
  }

  lemma GreedyPartFits(lens: seq<nat>, budget: int, batches: seq<seq<nat>>, k: nat)
    requires Greedy(lens, budget, batches) && k < |batches|
    ensures PartFits(lens, budget, Elements(batches[k]))
  {
    LengthOrderIsSorted(lens);
    OrderHasNoRepeats(lens);
    BatchesHaveNoRepeats(batches, k, k);
    DistinctSize(batches[k]);
    assert Fits(lens, budget, batches[k]);
    assert batches[k][0] in Elements(batches[k]);
    forall i | i in Elements(batches[k])
      ensures i < |lens| && (|batches[k]| == 1 || lens[i] * |batches[k]| <= budget)
    {
      FlattenMember(batches, k, i);
      ProductMonotone(lens[i], Width(lens, batches[k]), |batches[k]|, |batches[k]|);
    }
  }

  lemma {:induction false} FlattenCovers(batches: seq<seq<nat>>, x: nat)
    requires x in Flatten(batches)
    ensures exists j :: 0 <= j < |batches| && x in batches[j]
  {
    if batches != [] {
      var last := |batches| - 1;
      if x !in batches[last] {
        FlattenCovers(batches[..last], x);
        var j :| 0 <= j < last && x in batches[..last][j];
        assert x in batches[j];
      }
    }
  }

  lemma OrderHasNoRepeats(lens: seq<nat>)
    ensures NoDup(LengthOrder(lens))
  {
    LengthOrderIsSorted(lens);
    var order := LengthOrder(lens);
    forall i, j | 0 <= i < j < |order| ensures order[i] != order[j] {
      if order[i] == order[j] {
        var rest := order[..j] + order[j + 1..];
        forall x | x in Range(|lens|) ensures x in rest {
          assert x in order;
          var p :| 0 <= p < |order| && order[p] == x;
          assert x == rest[if p < j then p else if p == j then i else p - 1];
        }
        PrefixHoldsFew(rest, Range(|lens|));
        RangeSize(|lens|);
        assert false;
      }
    }
  }

  lemma {:induction false} BatchesHaveNoRepeats(batches: seq<seq<nat>>, k: nat, l: nat)
    requires NoDup(Flatten(batches))
    requires k <= l < |batches|
    ensures NoDup(batches[l])
    ensures k < l ==> forall x :: x in batches[k] ==> x !in batches[l]
  {
    var last := |batches| - 1;
    var front, back := Flatten(batches[..last]), batches[last];
    var all := Flatten(batches);
    assert all == front + back;
    assert NoDup(front) by {
      forall i, j | 0 <= i < j < |front| ensures front[i] != front[j] { assert all[i] != all[j]; }
    }
    if l < last {
      BatchesHaveNoRepeats(batches[..last], k, l);
    } else {
      forall i, j | 0 <= i < j < |back| ensures back[i] != back[j] {
        assert all[|front| + i] != all[|front| + j];
      }
      forall x | k < l && x in batches[k] ensures x !in back {
        assert x in batches[..last][k];
        FlattenMember(batches[..last], k, x);
        var i :| 0 <= i < |front| && front[i] == x;
        forall j | 0 <= j < |back| ensures back[j] != x {
          assert all[i] != all[|front| + j];
        }
      }
    }
  }

  lemma {:induction false} DistinctSize(s: seq<nat>)
    requires NoDup(s)
    ensures |Elements(s)| == |s|
  {
    if s != [] {
      forall j | 0 <= j < |s[1..]| ensures s[1..][j] != s[0] { assert s[j + 1] != s[0]; }
      DistinctSize(s[1..]);
      assert Elements(s) == {s[0]} + Elements(s[1..]);
    }
  }
}
