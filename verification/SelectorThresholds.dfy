/**
 Thresholds of the repair selector. Scores are elements of a discrete total order, here the natural
 numbers with zero for the score 0.0, so that the next float after a score is its successor.
 */
module SelectorThresholds {
  import opened Arithmetic
  import opened Common

  type Score = nat

  /** One scored block: whether it needs repair, and the repair score it was given. */
  datatype Example = Example(repair: bool, score: Score)

  // ---------- confusion counts ----------

  datatype Metrics = Metrics(trueRepair: nat, missedRepair: nat, unnecessaryRepair: nat, safeReuse: nat) {
    function Reused(): nat { safeReuse + missedRepair }
    function Total(): nat { trueRepair + missedRepair + unnecessaryRepair + safeReuse }
  }

  /** Examples with the given label and decision, when every score at or above the threshold is repaired. */
  function Tally(examples: seq<Example>, t: Score, needed: bool, predicted: bool): nat {
    if |examples| == 0 then 0
    else
      var last := examples[|examples| - 1];
      Tally(examples[..|examples| - 1], t, needed, predicted) +
        if last.repair == needed && (last.score >= t) == predicted then 1 else 0
  }

  function Evaluate(examples: seq<Example>, t: Score): Metrics {
    Metrics(Tally(examples, t, true, true), Tally(examples, t, true, false),
            Tally(examples, t, false, true), Tally(examples, t, false, false))
  }

  /** Repair labels there are; the threshold does not change them. */
  function Repairs(examples: seq<Example>): nat {
    if |examples| == 0 then 0
    else Repairs(examples[..|examples| - 1]) + if examples[|examples| - 1].repair then 1 else 0
  }

  /** The four counts split the examples, and two of them split the repair labels. */
  lemma {:induction false} CountsPartition(examples: seq<Example>, t: Score)
    ensures Tally(examples, t, true, true) + Tally(examples, t, true, false) == Repairs(examples)
    ensures Evaluate(examples, t).Total() == |examples|
  {
    if |examples| == 0 {
    } else {
      CountsPartition(examples[..|examples| - 1], t);
    }
  }

  // ---------- the counts as sets of positions ----------

  /** The blocks that need repair, and those of them that a threshold repairs. */
  ghost function RepairSet(examples: seq<Example>): set<nat> {
    set i: nat | i < |examples| && examples[i].repair
  }

  ghost function CaughtSet(examples: seq<Example>, t: Score): set<nat> {
    set i: nat | i < |examples| && examples[i].repair && examples[i].score >= t
  }

  lemma {:induction false} TallyIsPositions(examples: seq<Example>, t: Score, needed: bool, predicted: bool)
    ensures Tally(examples, t, needed, predicted) ==
      |set i: nat | i < |examples| && examples[i].repair == needed && (examples[i].score >= t) == predicted|
  {
    var p := (e: Example) => e.repair == needed && (e.score >= t) == predicted;
    CountTally(examples, t, needed, predicted, p);
    assert Where(examples, p) ==
      set i: nat | i < |examples| && examples[i].repair == needed && (examples[i].score >= t) == predicted;
  }

  lemma {:induction false} CountTally(examples: seq<Example>, t: Score, needed: bool, predicted: bool,
                                      p: Example -> bool)
    requires forall e :: p(e) <==> e.repair == needed && (e.score >= t) == predicted
    ensures Tally(examples, t, needed, predicted) == |Where(examples, p)|
  {
    if |examples| == 0 {
    } else {
      CountTally(examples[..|examples| - 1], t, needed, predicted, p);
      WhereLast(examples, p);
    }
  }

  /** The four counts: repaired and reused blocks, each with and without need for repair. */
  lemma EvaluateCounts(examples: seq<Example>, t: Score, m: Metrics)
    requires m == Evaluate(examples, t)
    ensures m.trueRepair == |set i: nat | i < |examples| && examples[i].repair && examples[i].score >= t|
    ensures m.missedRepair == |set i: nat | i < |examples| && examples[i].repair && examples[i].score < t|
    ensures m.unnecessaryRepair == |set i: nat | i < |examples| && !examples[i].repair && examples[i].score >= t|
    ensures m.safeReuse == |set i: nat | i < |examples| && !examples[i].repair && examples[i].score < t|
  {
    CountsOf(examples, t, true);
    CountsOf(examples, t, false);
    assert (set i: nat | i < |examples| && examples[i].repair == true && examples[i].score >= t) ==
      set i: nat | i < |examples| && examples[i].repair && examples[i].score >= t;
    assert (set i: nat | i < |examples| && examples[i].repair == true && examples[i].score < t) ==
      set i: nat | i < |examples| && examples[i].repair && examples[i].score < t;
    assert (set i: nat | i < |examples| && examples[i].repair == false && examples[i].score >= t) ==
      set i: nat | i < |examples| && !examples[i].repair && examples[i].score >= t;
    assert (set i: nat | i < |examples| && examples[i].repair == false && examples[i].score < t) ==
      set i: nat | i < |examples| && !examples[i].repair && examples[i].score < t;
  }

  lemma CountsOf(examples: seq<Example>, t: Score, needed: bool)
    ensures Tally(examples, t, needed, true) ==
      |set i: nat | i < |examples| && examples[i].repair == needed && examples[i].score >= t|
    ensures Tally(examples, t, needed, false) ==
      |set i: nat | i < |examples| && examples[i].repair == needed && examples[i].score < t|
  {
    TallyIsPositions(examples, t, needed, true);
    TallyIsPositions(examples, t, needed, false);
    assert (set i: nat | i < |examples| && examples[i].repair == needed && (examples[i].score >= t) == true) ==
      set i: nat | i < |examples| && examples[i].repair == needed && examples[i].score >= t;
    assert (set i: nat | i < |examples| && examples[i].repair == needed && (examples[i].score >= t) == false) ==
      set i: nat | i < |examples| && examples[i].repair == needed && examples[i].score < t;
  }

  lemma RepairSetSplits(examples: seq<Example>, t: Score)
    ensures |RepairSet(examples)| == |CaughtSet(examples, t)| +
      |set i: nat | i < |examples| && examples[i].repair && examples[i].score < t|
  {
    var missed := set i: nat | i < |examples| && examples[i].repair && examples[i].score < t;
    assert RepairSet(examples) == CaughtSet(examples, t) + missed && CaughtSet(examples, t) !! missed;
  }

  lemma RepairsArePositions(examples: seq<Example>, t: Score)
    ensures Repairs(examples) == |RepairSet(examples)|
    ensures Tally(examples, t, true, true) == |CaughtSet(examples, t)| <= |RepairSet(examples)|
  {
    EvaluateCounts(examples, t, Evaluate(examples, t));
    CountsPartition(examples, t);
    RepairSetSplits(examples, t);
  }

  /** `hits` out of `labels`, with the source's guard against an empty denominator. */
  function Rate(hits: nat, labels: nat): real {
    hits as real / (if labels == 0 then 1 else labels) as real
  }

  function Recall(m: Metrics): real {
    Rate(m.trueRepair, m.trueRepair + m.missedRepair)
  }

  lemma RecallIs(examples: seq<Example>, t: Score)
    ensures Recall(Evaluate(examples, t)) == Rate(Tally(examples, t, true, true), Repairs(examples))
  {
    CountsPartition(examples, t);
  }

  /** The reported recall is the share of the blocks that need repair and are repaired, zero without such blocks. */
  lemma RecallIsShare(examples: seq<Example>, t: Score)
    ensures Recall(Evaluate(examples, t)) == Ratio(|CaughtSet(examples, t)|, |RepairSet(examples)|)
  {
    RecallIs(examples, t);
    RepairsArePositions(examples, t);
    RateIsRatio(Tally(examples, t, true, true), Repairs(examples));
  }

  lemma RateIsRatio(hits: nat, labels: nat)
    requires hits <= labels
    ensures Rate(hits, labels) == Ratio(hits, labels)
  {
  }

  /** Raising the threshold can only move blocks from repair to reuse. */
  lemma {:induction false} TallyMonotone(examples: seq<Example>, low: Score, high: Score, needed: bool)
    requires low <= high
    ensures Tally(examples, high, needed, true) <= Tally(examples, low, needed, true)
    ensures Tally(examples, low, needed, false) <= Tally(examples, high, needed, false)
  {
    if |examples| == 0 {
    } else {
      TallyMonotone(examples[..|examples| - 1], low, high, needed);
    }
  }

  /** Thresholds that no score lies between decide alike. */
  lemma {:induction false} TallyConstant(examples: seq<Example>, low: Score, high: Score, needed: bool, predicted: bool)
    requires low <= high && forall i :: 0 <= i < |examples| ==> examples[i].score < low || high <= examples[i].score
    ensures Tally(examples, low, needed, predicted) == Tally(examples, high, needed, predicted)
  {
    if |examples| == 0 {
    } else {
      TallyConstant(examples[..|examples| - 1], low, high, needed, predicted);
    }
  }

  lemma {:induction false} NothingRepaired(examples: seq<Example>, t: Score)
    requires forall i :: 0 <= i < |examples| ==> examples[i].score < t
    ensures Tally(examples, t, true, true) == 0
  {
    if |examples| == 0 {
    } else {
      NothingRepaired(examples[..|examples| - 1], t);
    }
  }

  lemma {:induction false} EverythingRepaired(examples: seq<Example>)
    ensures Tally(examples, 0, true, false) == 0
  {
    if |examples| == 0 {
    } else {
      EverythingRepaired(examples[..|examples| - 1]);
    }
  }

  // ---------- the recall threshold ----------

  predicate Meets(examples: seq<Example>, t: Score, recall: real) {
    Recall(Evaluate(examples, t)) >= recall
  }

  /** The threshold repairs at least the given share of the blocks that need it. */
  ghost predicate Keeps(examples: seq<Example>, t: Score, share: real) {
    ShareOf(share, |RepairSet(examples)|, |CaughtSet(examples, t)|)
  }

  predicate ShareOf(share: real, whole: nat, part: nat) {
    share * whole as real <= part as real
  }

  lemma MeetsIsKeeps(examples: seq<Example>, t: Score, recall: real)
    requires Repairs(examples) > 0
    ensures Meets(examples, t, recall) <==> Keeps(examples, t, recall)
  {
    RecallDecides(examples, t, recall);
    RepairsArePositions(examples, t);
  }

  lemma RecallDecides(examples: seq<Example>, t: Score, recall: real)
    requires Repairs(examples) > 0
    ensures Meets(examples, t, recall) <==> ShareOf(recall, Repairs(examples), Tally(examples, t, true, true))
  {
    RecallIs(examples, t);
    RateAtLeast(Tally(examples, t, true, true), Repairs(examples), recall);
  }

  lemma RateAtLeast(hits: nat, labels: nat, r: real)
    requires labels > 0
    ensures Rate(hits, labels) >= r <==> ShareOf(r, labels, hits)
  {
    var q := Rate(hits, labels);
    assert q * labels as real == hits as real;
    assert (q - r) * labels as real == hits as real - r * labels as real;
  }

  lemma MeetsMonotone(examples: seq<Example>, low: Score, high: Score, recall: real)
    requires low <= high && Meets(examples, high, recall)
    ensures Meets(examples, low, recall)
  {
    TallyMonotone(examples, low, high, true);
    RecallIs(examples, low);
    RecallIs(examples, high);
    RateMonotone(Tally(examples, high, true, true), Tally(examples, low, true, true), Repairs(examples));
  }

  lemma RateMonotone(a: nat, b: nat, labels: nat)
    requires a <= b
    ensures Rate(a, labels) <= Rate(b, labels)
  {
    RatioMonotone(a, b, if labels == 0 then 1 else labels);
  }

  /** Threshold zero repairs everything, so it meets any target as soon as there is a repair label. */
  lemma ZeroMeets(examples: seq<Example>, recall: real)
    requires 0.0 < recall <= 1.0
    ensures Meets(examples, 0, recall) <==> Repairs(examples) > 0
  {
    EverythingRepaired(examples);
    CountsPartition(examples, 0);
    RecallIs(examples, 0);
    ExtremeRates(Repairs(examples));
  }

  lemma ExtremeRates(n: nat)
    ensures Rate(n, n) == if n == 0 then 0.0 else 1.0
    ensures Rate(0, n) == 0.0
  {
  }

  /** The smallest score at or above `t`, if any. */
  lemma {:induction false} NextScore(examples: seq<Example>, t: Score) returns (found: bool, s: Score)
    ensures found ==> s >= t && (exists i :: 0 <= i < |examples| && examples[i].score == s)
    ensures found ==> forall i :: 0 <= i < |examples| ==> examples[i].score < t || s <= examples[i].score
    ensures !found ==> forall i :: 0 <= i < |examples| ==> examples[i].score < t
  {
    if |examples| == 0 {
      found, s := false, 0;
    } else {
      var n := |examples| - 1;
      found, s := NextScore(examples[..n], t);
      var last := examples[n].score;
      if last >= t && (!found || last < s) {
        found, s := true, last;
      } else if found {
        var i :| 0 <= i < n && examples[..n][i].score == s;
        assert examples[i].score == s;
      }
    }
  }

  /** The best threshold among all conceivable ones: no larger one repairs as large a share. */
  ghost predicate Largest(examples: seq<Example>, share: real, t: Score) {
    Keeps(examples, t, share) && forall u: Score :: Keeps(examples, u, share) ==> u <= t
  }

  /**
   Choosing the largest eligible threshold among zero and the given scores. It exists exactly when
   there is a repair label, and then no threshold of any value is larger and still meets the target.
   */
  method SelectRepairThreshold(examples: seq<Example>, recall: real) returns (r: Result<Score>)
    ensures r.Ok? <==> 0.0 < recall <= 1.0 && RepairSet(examples) != {}
    ensures r.Ok? ==> Largest(examples, recall, r.value)
  {
    if !(0.0 < recall <= 1.0) {
      return Err("minimum_repair_recall must be in (0, 1]");
    }
    ZeroMeets(examples, recall);
    RepairsArePositions(examples, 0);
    var best: Option<Score> := if Meets(examples, 0, recall) then Some(0) else None;
    for i := 0 to |examples|
      invariant best.None? ==> !Meets(examples, 0, recall)
      invariant best.Some? ==> Meets(examples, best.value, recall)
      invariant best.Some? ==> forall k :: 0 <= k < i && Meets(examples, examples[k].score, recall) ==>
        examples[k].score <= best.value
    {
      var s := examples[i].score;
      if Meets(examples, s, recall) {
        MeetsMonotone(examples, 0, s, recall);
        if s > best.value {
          best := Some(s);
        }
      }
    }
    if best.None? {
      return Err("max() arg is an empty sequence");
    }
    MeetsMonotone(examples, 0, best.value, recall);
    MeetsIsKeeps(examples, best.value, recall);
    forall u: Score | Keeps(examples, u, recall) ensures u <= best.value {
      MeetsIsKeeps(examples, u, recall);
      LargerIsCovered(examples, recall, best.value, u);
    }
    return Ok(best.value);
  }

  lemma LargerIsCovered(examples: seq<Example>, recall: real, best: Score, u: Score)
    requires 0.0 < recall && Meets(examples, u, recall)
    requires forall k :: 0 <= k < |examples| && Meets(examples, examples[k].score, recall) ==> examples[k].score <= best
    ensures u <= best
  {
    var found, s := NextScore(examples, u);
    if found {
      TallyConstant(examples, u, s, true, true);
      TallyConstant(examples, u, s, true, false);
    } else {
      NothingRepaired(examples, u);
      RecallIs(examples, u);
      ExtremeRates(Repairs(examples));
    }
  }

  lemma ShareMonotone(examples: seq<Example>, t: Score, loose: real, strict: real)
    requires loose <= strict && Keeps(examples, t, strict)
    ensures Keeps(examples, t, loose)
  {
    var n := |RepairSet(examples)| as real;
    assert (strict - loose) * n >= 0.0;
  }

  /** A stricter target never reuses more: its threshold is no larger, and neither is what it reuses. */
  lemma StricterReusesLess(examples: seq<Example>, loose: real, strict: real, t: Score, u: Score)
    requires loose <= strict && Largest(examples, loose, t) && Largest(examples, strict, u)
    ensures u <= t && Evaluate(examples, u).Reused() <= Evaluate(examples, t).Reused()
    ensures forall e: Example :: e.score < u ==> e.score < t
  {
    ShareMonotone(examples, u, loose, strict);
    TallyMonotone(examples, u, t, true);
    TallyMonotone(examples, u, t, false);
  }

  /** One reported point: the threshold and the counts it leads to. */
  datatype OperatingPoint = OperatingPoint(threshold: Score, metrics: Metrics)

  /** The point of a recall target: the largest threshold that meets it, with its own counts. */
  ghost predicate PointFor(p: OperatingPoint, examples: seq<Example>, recall: real) {
    Largest(examples, recall, p.threshold) && p.metrics == Evaluate(examples, p.threshold)
  }

  /** One operating point per recall target; a stricter target has no larger threshold and reuses no more. */
  method OperatingPoints(examples: seq<Example>, targets: seq<real>) returns (r: Result<seq<OperatingPoint>>)
    ensures r.Ok? <==>
      |targets| == 0 || (RepairSet(examples) != {} && forall k :: 0 <= k < |targets| ==> 0.0 < targets[k] <= 1.0)
    ensures r.Ok? ==> |r.value| == |targets|
    ensures r.Ok? ==> forall k :: 0 <= k < |targets| ==> PointFor(r.value[k], examples, targets[k])
    ensures r.Ok? ==> forall j, k :: 0 <= j < |targets| && 0 <= k < |targets| && targets[j] <= targets[k] ==>
      NoMore(r.value[k], r.value[j])
  {
    var points: seq<OperatingPoint> := [];
    for k := 0 to |targets|
      invariant |points| == k && (k > 0 ==> RepairSet(examples) != {})
      invariant forall j :: 0 <= j < k ==> 0.0 < targets[j] <= 1.0 && PointFor(points[j], examples, targets[j])
    {
      var threshold := SelectRepairThreshold(examples, targets[k]);
      if threshold.Err? {
        return Err(threshold.reason);
      }
      points := points + [OperatingPoint(threshold.value, Evaluate(examples, threshold.value))];
    }
    forall j, k | 0 <= j < |targets| && 0 <= k < |targets| && targets[j] <= targets[k]
      ensures NoMore(points[k], points[j])
    {
      StricterReusesLess(examples, targets[j], targets[k], points[j].threshold, points[k].threshold);
    }
    return Ok(points);
  }

  predicate NoMore(p: OperatingPoint, q: OperatingPoint) {
    p.threshold <= q.threshold && p.metrics.Reused() <= q.metrics.Reused()
  }

  // ---------- budgets ----------

  /** Position `a` precedes position `b` in a stable order of the scores. */
  predicate Precedes(examples: seq<Example>, a: nat, b: nat)
    requires a < |examples| && b < |examples|
  {
    examples[a].score < examples[b].score || (examples[a].score == examples[b].score && a < b)
  }

  /** The permutation of the positions that lists the scores in increasing order, equal scores by position. */
  predicate Orders(order: seq<nat>, examples: seq<Example>) {
    && |order| == |examples| && NoDuplicates(order)
    && (forall i :: 0 <= i < |order| ==> order[i] < |examples|)
    && (forall i, j :: 0 <= i < j < |order| && order[i] < |examples| && order[j] < |examples| ==>
          Precedes(examples, order[i], order[j]))
  }

  /** The positions whose score is below a threshold: what that threshold reuses. */
  function ReuseSet(examples: seq<Example>, t: Score): set<nat> {
    set i: nat | i < |examples| && examples[i].score < t
  }

  /** The reported reuse counts are the size of that set. */
  lemma {:induction false} ReuseSetSize(examples: seq<Example>, t: Score)
    ensures |ReuseSet(examples, t)| == Tally(examples, t, true, false) + Tally(examples, t, false, false)
  {
    if |examples| == 0 {
      assert ReuseSet(examples, t) == {};
    } else {
      var n := |examples| - 1;
      ReuseSetSize(examples[..n], t);
      ReuseSetNext(examples, t);
    }
  }

  lemma ReuseSetNext(examples: seq<Example>, t: Score)
    requires |examples| > 0
    ensures var n := |examples| - 1;
      |ReuseSet(examples, t)| == |ReuseSet(examples[..n], t)| + if examples[n].score < t then 1 else 0
  {
    var n := |examples| - 1;
    var before, after := ReuseSet(examples[..n], t), ReuseSet(examples, t);
    if examples[n].score < t {
      assert after == before + {n};
      assert n !in before;
    } else {
      assert after == before;
    }
  }

  /** `ceil(target * n)` for a rational target `p / q` in (0, 1]. */
  function BudgetCount(p: nat, q: nat, n: nat): (c: nat)
    requires 0 < p <= q && n > 0
    ensures 1 <= c <= n && p * n <= c * q < p * n + q
  {
    CeilingBounds(p, q, n);
    (p * n + q - 1) / q
  }

  lemma CeilingBounds(p: nat, q: nat, n: nat)
    requires 0 < p <= q && n > 0
    ensures var c := (p * n + q - 1) / q; 1 <= c <= n && p * n <= c * q < p * n + q
  {
    var x := p * n + q - 1;
    var c := x / q;
    assert x == c * q + x % q;
    assert p * n >= 1;
    assert p * n <= q * n;
    assert c > n ==> c * q >= (n + 1) * q;
    assert c < 1 ==> c * q <= 0;
  }

  /** A target `p / q` in (0, 1]. */
  type Target = t: (nat, nat) | 0 < t.0 <= t.1 witness (1, 1)

  function CountFor(t: Target, n: nat): nat
    requires n > 0
  {
    BudgetCount(t.0, t.1, n)
  }

  /** The order of targets as ratios. */
  predicate AtMost(s: Target, t: Target) {
    s.0 * t.1 <= t.0 * s.1
  }

  /** A larger ratio asks for at least as many blocks. */
  lemma BudgetCountMonotone(s: Target, t: Target, n: nat)
    requires AtMost(s, t) && n > 0
    ensures CountFor(s, n) <= CountFor(t, n)
  {
    var c, d := CountFor(s, n), CountFor(t, n);
    CountSuffices(s, t, n, d);
    if d < c {
      Scaled(d + 1, c, s.1);
      assert false;
    }
  }

  /** What reaches the larger ratio reaches the smaller one. */
  lemma CountSuffices(s: Target, t: Target, n: nat, d: nat)
    requires AtMost(s, t) && t.0 * n <= d * t.1
    ensures s.0 * n <= d * s.1
  {
    Scaled(t.0 * n, d * t.1, s.1);
    Scaled(s.0 * t.1, t.0 * s.1, n);
    Swapped(t.0, n, s.1);
    Swapped(d, t.1, s.1);
    Swapped(s.0, t.1, n);
    Unscaled(s.0 * n, d * s.1, t.1);
  }

  lemma Swapped(a: nat, b: nat, c: nat)
    ensures a * b * c == a * c * b
  {
    assert b * c == c * b;
    assert a * b * c == a * (b * c);
    assert a * c * b == a * (c * b);
  }

  lemma Unscaled(a: nat, b: nat, q: nat)
    requires a * q <= b * q && q > 0
    ensures a <= b
  {
  }

  /** The threshold of a budget: just above the score of the last block the budget must reuse. */
  function BudgetThreshold(examples: seq<Example>, order: seq<nat>, count: nat): Score
    requires Orders(order, examples) && 1 <= count <= |examples|
  {
    examples[order[count - 1]].score + 1
  }

  /** The first `count` positions are all reused. */
  lemma BudgetIsReached(examples: seq<Example>, order: seq<nat>, count: nat)
    requires Orders(order, examples) && 1 <= count <= |examples|
    ensures count <= |ReuseSet(examples, BudgetThreshold(examples, order, count))|
  {
    var t := BudgetThreshold(examples, order, count);
    var first := order[..count];
    DistinctCardinality(first);
    forall i | i in Elements(first) ensures i in ReuseSet(examples, t) {
      var k :| 0 <= k < count && first[k] == i;
      assert k < count - 1 ==> Precedes(examples, order[k], order[count - 1]);
    }
    SubsetSize(Elements(first), ReuseSet(examples, t));
  }

  lemma SubsetSize(a: set<nat>, b: set<nat>)
    requires a <= b
    ensures |a| <= |b|
  {
    assert b == a + (b - a);
  }

  /** Every other threshold that reuses enough reuses at least the same blocks. */
  lemma BudgetIsSmallest(examples: seq<Example>, order: seq<nat>, count: nat, u: Score)
    requires Orders(order, examples) && 1 <= count <= |examples| && count <= |ReuseSet(examples, u)|
    ensures ReuseSet(examples, BudgetThreshold(examples, order, count)) <= ReuseSet(examples, u)
  {
    var last := examples[order[count - 1]].score;
    if u <= last {
      BelowLast(examples, order, count, u);
      assert false;
    }
  }

  /** At most the positions before the last budgeted one lie strictly below its score. */
  lemma BelowLast(examples: seq<Example>, order: seq<nat>, count: nat, u: Score)
    requires Orders(order, examples) && 1 <= count <= |examples| && u <= examples[order[count - 1]].score
    ensures |ReuseSet(examples, u)| < count
  {
    var first := order[..count - 1];
    DistinctCardinality(first);
    forall i | i in ReuseSet(examples, u) ensures i in Elements(first) {
      OrderIsOnto(examples, order, i);
      var k :| 0 <= k < |order| && order[k] == i;
      assert k < count - 1;
      assert first[k] == i;
    }
    SubsetSize(ReuseSet(examples, u), Elements(first));
  }

  function Positions(n: nat): (s: set<nat>)
    ensures |s| == n && forall i: nat :: i in s <==> i < n
  {
    if n == 0 then {} else Positions(n - 1) + {n - 1}
  }

  lemma OrderIsOnto(examples: seq<Example>, order: seq<nat>, i: nat)
    requires Orders(order, examples) && i < |examples|
    ensures i in order
  {
    DistinctCardinality(order);
    var all, listed := Positions(|examples|), Elements(order);
    assert listed <= all;
    assert all == listed + (all - listed);
    assert |all - listed| == 0;
    assert i in all;
  }

  /** Larger budgets reuse supersets. */
  lemma BudgetsAreNested(examples: seq<Example>, order: seq<nat>, small: nat, large: nat)
    requires Orders(order, examples) && 1 <= small <= large <= |examples|
    ensures var low, high := BudgetThreshold(examples, order, small), BudgetThreshold(examples, order, large);
      ReuseSet(examples, low) <= ReuseSet(examples, high)
  {
    assert small < large ==> Precedes(examples, order[small - 1], order[large - 1]);
  }

  /** One reported budget point: target `p / q`, threshold and counts. */
  datatype BudgetPoint = BudgetPoint(p: nat, q: nat, threshold: Score, reused: nat, unsafe: nat)

  /** The point reuses the smallest threshold-closed set that reaches its budget. */
  ghost predicate Optimal(point: BudgetPoint, examples: seq<Example>) {
    && 0 < point.p <= point.q && |examples| > 0
    && var set0 := ReuseSet(examples, point.threshold);
    && |set0| == point.reused == Evaluate(examples, point.threshold).Reused()
    && point.unsafe == Evaluate(examples, point.threshold).missedRepair <= point.reused
    && point.p * |examples| <= point.reused * point.q
    && forall u: Score :: BudgetCount(point.p, point.q, |examples|) <= |ReuseSet(examples, u)| ==>
      set0 <= ReuseSet(examples, u)
  }

  method BudgetPointFor(examples: seq<Example>, order: seq<nat>, p: nat, q: nat) returns (point: BudgetPoint)
    requires Orders(order, examples) && |examples| > 0 && 0 < p <= q
    ensures point.p == p && point.q == q &&
      point.threshold == BudgetThreshold(examples, order, BudgetCount(p, q, |examples|))
    ensures Optimal(point, examples) && point.reused > 0
  {
    var count := BudgetCount(p, q, |examples|);
    var boundary := examples[order[count - 1]].score;
    var metrics := Evaluate(examples, boundary + 1);
    point := BudgetPoint(p, q, boundary + 1, metrics.Reused(), metrics.missedRepair);
    PointIsOptimal(examples, order, p, q);
    BudgetIsReached(examples, order, count);
    ReuseSetSize(examples, boundary + 1);
  }

  /** One optimal point per target; a larger target reuses a superset. */
  method ReuseBudgetPoints(examples: seq<Example>, targets: seq<Target>) returns (r: Result<seq<BudgetPoint>>)
    ensures r.Ok? <==> |examples| > 0
    ensures r.Ok? ==> |r.value| == |targets|
    ensures r.Ok? ==> forall k :: 0 <= k < |targets| ==>
      (r.value[k].p, r.value[k].q) == targets[k] && Optimal(r.value[k], examples)
    ensures r.Ok? ==> forall j, k | 0 <= j < |targets| && 0 <= k < |targets| ::
      AtMost(targets[j], targets[k]) ==>
        ReuseSet(examples, r.value[j].threshold) <= ReuseSet(examples, r.value[k].threshold)
  {
    if |examples| == 0 {
      return Err("reuse-budget inputs must be aligned finite vectors");
    }
    var order := Argsort(examples);
    var points: seq<BudgetPoint> := [];
    for k := 0 to |targets|
      invariant |points| == k
      invariant forall j :: 0 <= j < k ==> (points[j].p, points[j].q) == targets[j] && Optimal(points[j], examples)
      invariant forall j :: 0 <= j < k ==> Counted(points[j], targets[j], examples, order)
    {
      var point := BudgetPointFor(examples, order, targets[k].0, targets[k].1);
      points := points + [point];
    }
    forall j, k | 0 <= j < |targets| && 0 <= k < |targets| && AtMost(targets[j], targets[k])
      ensures ReuseSet(examples, points[j].threshold) <= ReuseSet(examples, points[k].threshold)
    {
      assert Counted(points[j], targets[j], examples, order) && Counted(points[k], targets[k], examples, order);
      BudgetCountMonotone(targets[j], targets[k], |examples|);
      BudgetsAreNested(examples, order, CountFor(targets[j], |examples|), CountFor(targets[k], |examples|));
    }
    return Ok(points);
  }

  predicate Counted(point: BudgetPoint, t: Target, examples: seq<Example>, order: seq<nat>)
    requires |examples| > 0 && Orders(order, examples)
  {
    point.threshold == BudgetThreshold(examples, order, CountFor(t, |examples|))
  }

  // ---------- ordering the scores ----------

  /** The positions below `n` in increasing order of score, equal scores in their original order. */
  predicate OrdersUpTo(order: seq<nat>, examples: seq<Example>, n: nat) {
    && n <= |examples| && |order| == n && NoDuplicates(order)
    && (forall i :: 0 <= i < |order| ==> order[i] < n)
    && (forall i, j :: 0 <= i < j < |order| && order[i] < n && order[j] < n ==> Precedes(examples, order[i], order[j]))
  }

  /** The entry at `i` once `n` is inserted at `k`. */
  function Inserted(order: seq<nat>, n: nat, k: nat, i: nat): nat
    requires k <= |order| && i <= |order|
  {
    if i < k then order[i] else if i == k then n else order[i - 1]
  }

  lemma InsertOrders(order: seq<nat>, examples: seq<Example>, n: nat, k: nat)
    requires OrdersUpTo(order, examples, n) && n < |examples| && k <= n
    requires forall i :: 0 <= i < k ==> examples[order[i]].score <= examples[n].score
    requires forall i :: k <= i < n ==> examples[n].score < examples[order[i]].score
    ensures OrdersUpTo(order[..k] + [n] + order[k..], examples, n + 1)
  {
    var next := order[..k] + [n] + order[k..];
    forall i | 0 <= i < |next| ensures next[i] == Inserted(order, n, k, i) && next[i] <= n {
    }
    forall i, j | 0 <= i < j < |next|
      ensures next[i] != next[j] && Precedes(examples, next[i], next[j])
    {
      assert next[i] == Inserted(order, n, k, i) && next[j] == Inserted(order, n, k, j);
    }
  }

  /** Stable insertion of one position after another. */
  method Argsort(examples: seq<Example>) returns (order: seq<nat>)
    ensures Orders(order, examples)
  {
    order := [];
    for n := 0 to |examples|
      invariant OrdersUpTo(order, examples, n)
    {
      var k := n;
      while k > 0 && examples[n].score < examples[order[k - 1]].score
        invariant k <= n
        invariant forall i :: k <= i < n ==> examples[n].score < examples[order[i]].score
      {
        k := k - 1;
      }
      InsertOrders(order, examples, n, k);
      order := order[..k] + [n] + order[k..];
    }
  }

  lemma Scaled(a: nat, b: nat, q: nat)
    requires a <= b
    ensures a * q <= b * q
  {
  }

  lemma PointIsOptimal(examples: seq<Example>, order: seq<nat>, p: nat, q: nat)
    requires Orders(order, examples) && |examples| > 0 && 0 < p <= q
    ensures var t := BudgetThreshold(examples, order, BudgetCount(p, q, |examples|)); var m := Evaluate(examples, t);
      Optimal(BudgetPoint(p, q, t, m.Reused(), m.missedRepair), examples)
  {
    var count := BudgetCount(p, q, |examples|);
    var t := BudgetThreshold(examples, order, count);
    ReuseSetSize(examples, t);
    BudgetIsReached(examples, order, count);
    Scaled(count, Evaluate(examples, t).Reused(), q);
    forall u: Score | count <= |ReuseSet(examples, u)| ensures ReuseSet(examples, t) <= ReuseSet(examples, u) {
      BudgetIsSmallest(examples, order, count, u);
    }
  }
}
