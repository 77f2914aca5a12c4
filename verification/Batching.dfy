/**
 Freezing counterfactual cases into batches: the greedy loop of the full reference plan and its
 optimality among all contiguous plans that obey the same rules.
 */
module Batching {
  import opened Common

  /** The dataset splits, in their order. */
  datatype Split = Train | Validation | Test

  /** A planned transition: its dataset split and how many target blocks it tests. */
  datatype Case = Case(split: Split, blocks: nat)

  /** One emitted batch. */
  datatype Batch = Batch(number: nat, split: Option<Split>, startCase: nat, caseCount: nat, blockCount: nat)

  /** Target blocks of the cases `i` up to `j`. */
  function Blocks(cases: seq<Case>, i: nat, j: nat): nat
    requires i <= j <= |cases|
  {
    if i == j then 0 else Blocks(cases, i, j - 1) + cases[j - 1].blocks
  }

  predicate OneSplit(cases: seq<Case>, i: nat, j: nat)
    requires i < j <= |cases|
  {
    forall k :: i <= k < j ==> cases[k].split == cases[i].split
  }

  /** The rules of a batch: some cases, one split, within the target unless a single case exceeds it. */
  predicate Admissible(cases: seq<Case>, target: nat, i: nat, j: nat) {
    && i < j <= |cases|
    && OneSplit(cases, i, j)
    && (Blocks(cases, i, j) <= target || j == i + 1)
  }

  /** Batch `k` of a plan with these cut points is admissible. */
  predicate Piece(cases: seq<Case>, target: nat, cuts: seq<nat>, k: nat)
    requires 0 < k < |cuts|
  {
    Admissible(cases, target, cuts[k - 1], cuts[k])
  }

  /** Batch `k` could not have taken its successor's first case. */
  predicate Full(cases: seq<Case>, target: nat, cuts: seq<nat>, k: nat)
    requires 0 < k < |cuts|
  {
    cuts[k] < |cases| ==> !Admissible(cases, target, cuts[k - 1], cuts[k] + 1)
  }

  /** Cut points of contiguous admissible batches, starting at the first case. */
  ghost predicate Pieces(cases: seq<Case>, target: nat, cuts: seq<nat>) {
    && |cuts| > 0 && cuts[0] == 0
    && forall k :: 0 < k < |cuts| ==> Piece(cases, target, cuts, k)
  }

  /** A plan of the whole case list. */
  ghost predicate Plan(cases: seq<Case>, target: nat, cuts: seq<nat>) {
    Pieces(cases, target, cuts) && cuts[|cuts| - 1] == |cases|
  }

  ghost predicate Saturated(cases: seq<Case>, target: nat, cuts: seq<nat>) {
    forall k :: 0 < k < |cuts| ==> Full(cases, target, cuts, k)
  }

  /** The record of the batch `i` up to `j`. */
  function Record(cases: seq<Case>, number: nat, i: nat, j: nat): Batch
    requires i < j <= |cases|
  {
    Batch(number, Some(cases[i].split), i + 1, j - i, Blocks(cases, i, j))
  }

  predicate Recorded(batches: seq<Batch>, cases: seq<Case>, cuts: seq<nat>, k: nat)
    requires 0 < k < |cuts| == |batches| + 1
  {
    cuts[k - 1] < cuts[k] <= |cases| && batches[k - 1] == Record(cases, k, cuts[k - 1], cuts[k])
  }

  /** The records describe exactly the pieces between consecutive cuts. */
  ghost predicate Describes(batches: seq<Batch>, cases: seq<Case>, cuts: seq<nat>) {
    |cuts| == |batches| + 1 && forall k :: 0 < k < |cuts| ==> Recorded(batches, cases, cuts, k)
  }

  // ---------- block totals ----------

  lemma {:induction false} BlocksSplit(cases: seq<Case>, i: nat, m: nat, j: nat)
    requires i <= m <= j <= |cases|
    ensures Blocks(cases, i, j) == Blocks(cases, i, m) + Blocks(cases, m, j)
  {
    if m < j {
      BlocksSplit(cases, i, m, j - 1);
    }
  }

  /** Any nonempty stretch of an admissible batch is admissible. */
  lemma StretchIsAdmissible(cases: seq<Case>, target: nat, i: nat, a: nat, b: nat, j: nat)
    requires i <= a < b <= j && Admissible(cases, target, i, j)
    ensures Admissible(cases, target, a, b)
  {
    BlocksSplit(cases, i, a, j);
    BlocksSplit(cases, a, b, j);
  }

  // ---------- greedy stays ahead ----------

  lemma {:induction false} CutsIncrease(cases: seq<Case>, target: nat, cuts: seq<nat>, i: nat, j: nat)
    requires Pieces(cases, target, cuts) && i < j < |cuts|
    ensures cuts[i] < cuts[j]
  {
    assert Piece(cases, target, cuts, j);
    if i + 1 < j {
      CutsIncrease(cases, target, cuts, i, j - 1);
    }
  }

  /** After every number of batches a greedy plan has covered at least as many cases as any other. */
  lemma {:induction false} GreedyStaysAhead(cases: seq<Case>, target: nat, greedy: seq<nat>, other: seq<nat>, k: nat)
    requires Pieces(cases, target, greedy) && Saturated(cases, target, greedy) && Pieces(cases, target, other)
    requires k < |greedy| && k < |other|
    ensures other[k] <= greedy[k]
  {
    if k == 0 {
    } else {
      GreedyStaysAhead(cases, target, greedy, other, k - 1);
      if greedy[k] < other[k] {
        assert Piece(cases, target, greedy, k) && Full(cases, target, greedy, k) && Piece(cases, target, other, k);
        StretchIsAdmissible(cases, target, other[k - 1], greedy[k - 1], greedy[k] + 1, other[k]);
        assert false;
      }
    }
  }

  /** A greedy plan uses the fewest batches. */
  lemma GreedyIsMinimal(cases: seq<Case>, target: nat, greedy: seq<nat>, other: seq<nat>)
    requires Plan(cases, target, greedy) && Saturated(cases, target, greedy) && Plan(cases, target, other)
    ensures |greedy| <= |other|
  {
    if |other| < |greedy| {
      GreedyStaysAhead(cases, target, greedy, other, |other| - 1);
      CutsIncrease(cases, target, greedy, |other| - 1, |greedy| - 1);
      assert false;
    }
  }

  // ---------- the loop ----------

  /** A further case may join a batch exactly when the loop does not break before it. */
  lemma Joins(cases: seq<Case>, target: nat, i: nat, j: nat)
    requires Admissible(cases, target, i, j) && j < |cases|
    ensures Admissible(cases, target, i, j + 1) <==>
      Blocks(cases, i, j) + cases[j].blocks <= target && cases[j].split == cases[i].split
  {
  }

  /** Emitting the piece `start..index` extends everything said about the emitted ones. */
  lemma Emit(cases: seq<Case>, target: nat, batches: seq<Batch>, cuts: seq<nat>, index: nat)
    requires Pieces(cases, target, cuts) && Saturated(cases, target, cuts) && Describes(batches, cases, cuts)
    requires Admissible(cases, target, cuts[|cuts| - 1], index)
    requires index < |cases| ==> !Admissible(cases, target, cuts[|cuts| - 1], index + 1)
    ensures Pieces(cases, target, cuts + [index]) && Saturated(cases, target, cuts + [index])
    ensures Describes(batches + [Record(cases, |batches| + 1, cuts[|cuts| - 1], index)], cases, cuts + [index])
  {
    var cs := cuts + [index];
    var bs := batches + [Record(cases, |batches| + 1, cuts[|cuts| - 1], index)];
    forall k | 0 < k < |cs|
      ensures Piece(cases, target, cs, k) && Full(cases, target, cs, k) && Recorded(bs, cases, cs, k)
    {
      if k < |cuts| {
        assert Piece(cases, target, cuts, k) && Full(cases, target, cuts, k) && Recorded(batches, cases, cuts, k);
      }
    }
  }

  /**
   The batching loop: what it emits, and that no admissible plan has fewer batches. There is always a
   case, since the plan is refused before if a split has none.
   */
  method GreedyBatches(cases: seq<Case>, target: nat) returns (batches: seq<Batch>, ghost cuts: seq<nat>)
    requires target >= 1 && |cases| > 0
    ensures Plan(cases, target, cuts) && Describes(batches, cases, cuts)
    ensures forall other :: Plan(cases, target, other) ==> |batches| <= |other| - 1
  {
    batches := [];
    cuts := [0];
    var start, blocks, count := 0, 0, 0;
    var currentSplit: Option<Split> := None;
    for index := 0 to |cases|
      invariant start + count == index && (index > 0 ==> count > 0)
      invariant Pieces(cases, target, cuts) && Saturated(cases, target, cuts) && Describes(batches, cases, cuts)
      invariant start == cuts[|cuts| - 1] && blocks == Blocks(cases, start, index)
      invariant count > 0 ==> currentSplit == Some(cases[start].split) && Admissible(cases, target, start, index)
      invariant count == 0 ==> currentSplit == None && batches == []
    {
      var row := cases[index];
      if count > 0 {
        Joins(cases, target, start, index);
      }
      if count > 0 && (blocks + row.blocks > target || Some(row.split) != currentSplit) {
        Emit(cases, target, batches, cuts, index);
        batches := batches + [Batch(|batches| + 1, currentSplit, start + 1, count, blocks)];
        cuts := cuts + [index];
        start, blocks, count := index, 0, 0;
      }
      currentSplit := Some(row.split);
      blocks := blocks + row.blocks;
      count := count + 1;
    }
    Emit(cases, target, batches, cuts, |cases|);
    cuts := cuts + [|cases|];
    batches := batches + [Batch(|batches| + 1, currentSplit, start + 1, count, blocks)];
    forall other | Plan(cases, target, other) ensures |batches| <= |other| - 1 {
      GreedyIsMinimal(cases, target, cuts, other);
    }
  }

  function BlockTotal(batches: seq<Batch>): nat {
    if |batches| == 0 then 0 else BlockTotal(batches[..|batches| - 1]) + batches[|batches| - 1].blockCount
  }

  function CaseTotal(batches: seq<Batch>): nat {
    if |batches| == 0 then 0 else CaseTotal(batches[..|batches| - 1]) + batches[|batches| - 1].caseCount
  }

  /** The records tile the cases: their case and block counts add up to what they cover. */
  lemma {:induction false} BatchesConserveBlocks(cases: seq<Case>, batches: seq<Batch>, cuts: seq<nat>)
    requires Describes(batches, cases, cuts) && cuts[0] == 0
    ensures cuts[|batches|] <= |cases|
    ensures BlockTotal(batches) == Blocks(cases, 0, cuts[|batches|]) && CaseTotal(batches) == cuts[|batches|]
  {
    var n := |batches|;
    if n == 0 {
    } else {
      assert Recorded(batches, cases, cuts, n);
      var bs, cs := batches[..n - 1], cuts[..n];
      forall k | 0 < k < |cs| ensures Recorded(bs, cases, cs, k) {
        assert Recorded(batches, cases, cuts, k);
      }
      BatchesConserveBlocks(cases, bs, cs);
      BlocksSplit(cases, 0, cuts[n - 1], cuts[n]);
    }
  }
}
