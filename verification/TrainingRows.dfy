/** From a batch of trials to training rows and the summary counts of one case. */
module TrainingRows {
  import opened Common
  import opened TokenEdges
  import opened CounterfactualTrials
  import ReuseOpportunity
  import BlockFeatures

  // ---------- the feature row of a tested block ----------

  function PlanOf(o: Observation): Option<Plan> {
    if o.metrics.Some? then o.metrics.value.plan else None
  }

  predicate HasTokens(o: Observation) {
    o.tokens.Some? && o.tokens.value != []
  }

  /** Tokens and plan of the trial are recorded, with the block size of the discovery. */
  predicate Readable(t: Trial, blockSize: int) {
    && HasTokens(t.donor) && HasTokens(t.active)
    && PlanOf(t.active).Some? && PlanOf(t.active).value.blockSize == Some(blockSize) &&
      PlanOf(t.active).value.native.Some?
  }

  /** The tested block in the naive terms: a full block past the native hit whose tokens the donor also holds. */
  ghost predicate Locatable(previous: Prompt, current: Prompt, native: int, blockSize: int, block: int) {
    && !ReuseOpportunity.Rejects(previous, current, native, blockSize)
    && 0 <= block && native <= block * blockSize && block * blockSize + blockSize <= |current|
    && exists p: nat :: ReuseOpportunity.OccursAt(previous, ReuseOpportunity.BlockTokens(current, blockSize, block), p)
  }

  ghost predicate HasFeature(t: Trial, blockSize: int) {
    && Readable(t, blockSize)
    && Locatable(t.donor.tokens.value, t.active.tokens.value, PlanOf(t.active).value.native.value, blockSize,
                 t.intervention.reused)
  }

  /** The features of a block between two prompts, if its tokens occur in the previous one. */
  ghost function BlockRow(previous: Prompt, current: Prompt, blockSize: int,
                          block: int): Option<BlockFeatures.Features> {
    if blockSize < 1 || block < 0 || block * blockSize + blockSize > |current| then None
    else
      match ReuseOpportunity.CandidateAt(previous, current, blockSize, block)
      case None => None
      case Some(c) => Some(BlockFeatures.RowOf(c, BlockFeatures.EditOf(previous, current, blockSize), current,
                                               blockSize))
  }

  /** The features of the block that a trial tested. */
  ghost function TestedFeatures(t: Trial, blockSize: int): Option<BlockFeatures.Features> {
    if HasTokens(t.donor) && HasTokens(t.active)
    then BlockRow(t.donor.tokens.value, t.active.tokens.value, blockSize, t.intervention.reused)
    else None
  }

  /**
   Tested features are the row of the tested block's candidate, whose meaning `BlockFeatures` states
   field by field.
   */
  lemma TestedRow(t: Trial, blockSize: int) returns (c: ReuseOpportunity.Candidate)
    requires TestedFeatures(t, blockSize).Some?
    ensures blockSize >= 1 && c.blockIndex == t.intervention.reused
    ensures ReuseOpportunity.Witnesses(c, t.donor.tokens.value, t.active.tokens.value, blockSize)
    ensures var previous, current := t.donor.tokens.value, t.active.tokens.value;
      TestedFeatures(t, blockSize).value ==
        BlockFeatures.RowOf(c, BlockFeatures.EditOf(previous, current, blockSize), current, blockSize)
  {
    var previous, current, block := t.donor.tokens.value, t.active.tokens.value, t.intervention.reused;
    c := ReuseOpportunity.CandidateAt(previous, current, blockSize, block).value;
    ReuseOpportunity.CandidateMeaning(previous, current, blockSize, block);
  }

  /** The rows of one block; block indices never repeat, so there is at most one. */
  method MatchingRows(rows: seq<BlockFeatures.Features>, block: int) returns (matches: seq<BlockFeatures.Features>)
    requires forall i, j :: 0 <= i < j < |rows| ==> rows[i].blockIndex < rows[j].blockIndex
    ensures |matches| == 1 <==> exists k :: 0 <= k < |rows| && rows[k].blockIndex == block
    ensures |matches| == 1 ==> matches[0] in rows && matches[0].blockIndex == block
  {
    matches := [];
    for k := 0 to |rows|
      invariant |matches| <= 1 && (matches == [] <==> forall j :: 0 <= j < k ==> rows[j].blockIndex != block)
      invariant matches != [] ==> matches[0] in rows[..k] && matches[0].blockIndex == block
    {
      if rows[k].blockIndex == block {
        matches := matches + [rows[k]];
      }
    }
  }

  /** The row of every candidate is the row of its block, whatever spans a sequence matcher reports. */
  method CandidateRows(previous: Prompt, current: Prompt, native: nat, blockSize: nat)
    returns (rows: seq<BlockFeatures.Features>)
    requires blockSize >= 1 && !ReuseOpportunity.Rejects(previous, current, native, blockSize)
    ensures |rows| == |ReuseOpportunity.AllCandidates(previous, current, native, blockSize)|
    ensures forall k :: 0 <= k < |rows| ==>
      RowOfBlock(rows[k], previous, current, blockSize,
                 ReuseOpportunity.AllCandidates(previous, current, native, blockSize)[k].blockIndex)
  {
    var spans: seq<ReuseOpportunity.MatchingSpan> := *;
    var opportunity := ReuseOpportunity.AnalyzeReuseOpportunity(previous, current, native, blockSize, spans);
    BlockFeatures.AnalysisIsSourced(opportunity.value, previous, current);
    var extracted := BlockFeatures.ExtractBlockFeatures(previous, current, opportunity.value);
    rows := extracted.value;
    ghost var candidates := opportunity.value.candidates;
    forall k | 0 <= k < |rows| ensures RowOfBlock(rows[k], previous, current, blockSize, candidates[k].blockIndex) {
      assert candidates[k] in candidates;
      ListedIsBlockRow(previous, current, native, blockSize, candidates[k]);
    }
  }

  ghost predicate RowOfBlock(f: BlockFeatures.Features, previous: Prompt, current: Prompt, blockSize: int, block: int) {
    f.blockIndex == block && Some(f) == BlockRow(previous, current, blockSize, block)
  }

  /** The one row of a block among the rows of all candidates. */
  method SelectRow(previous: Prompt, current: Prompt, native: nat, blockSize: nat, block: int)
    returns (r: Result<BlockFeatures.Features>)
    requires blockSize >= 1 && !ReuseOpportunity.Rejects(previous, current, native, blockSize)
    ensures r.Ok? <==> Locatable(previous, current, native, blockSize, block)
    ensures r.Ok? ==> RowOfBlock(r.value, previous, current, blockSize, block)
  {
    var rows := CandidateRows(previous, current, native, blockSize);
    RowsAreLocatable(previous, current, native, blockSize,
                     ReuseOpportunity.AllCandidates(previous, current, native, blockSize), rows, block);
    var matches := MatchingRows(rows, block);
    if |matches| != 1 {
      return Err("tested block has no unique feature row");
    }
    return Ok(matches[0]);
  }

  /**
   A feature row exists exactly for a readable trial of a block that the naive scan finds, and describes
   that block.
   */
  method ExtractTrialFeature(t: Trial, blockSize: int) returns (r: Result<BlockFeatures.Features>)
    ensures r.Ok? <==> HasFeature(t, blockSize)
    ensures r.Ok? ==> r.value.blockIndex == t.intervention.reused && Some(r.value) == TestedFeatures(t, blockSize)
  {
    if t.donor.tokens.None? || t.donor.tokens.value == [] {
      return Err("donor observation has no prompt token IDs");
    }
    if t.active.tokens.None? || t.active.tokens.value == [] {
      return Err("intervention observation has no prompt token IDs");
    }
    if PlanOf(t.active).None? || PlanOf(t.active).value.blockSize != Some(blockSize) {
      return Err("intervention has no matching partial-reuse plan");
    }
    if PlanOf(t.active).value.native.None? {
      return Err("intervention native cached tokens must be an integer");
    }
    var previous, current, native := t.donor.tokens.value, t.active.tokens.value, PlanOf(t.active).value.native.value;
    if ReuseOpportunity.Rejects(previous, current, native, blockSize) {
      return Err("the reuse analysis rejects the recorded hit");
    }
    r := SelectRow(previous, current, native, blockSize, t.intervention.reused);
  }

  /** Rows follow the candidates, which increase and are exactly the locatable blocks. */
  lemma RowsAreLocatable(previous: Prompt, current: Prompt, native: nat, blockSize: nat,
                         candidates: seq<ReuseOpportunity.Candidate>, rows: seq<BlockFeatures.Features>, block: int)
    requires blockSize >= 1 && !ReuseOpportunity.Rejects(previous, current, native, blockSize)
    requires candidates == ReuseOpportunity.AllCandidates(previous, current, native, blockSize)
    requires |rows| == |candidates| && forall k :: 0 <= k < |rows| ==> rows[k].blockIndex == candidates[k].blockIndex
    ensures forall i, j :: 0 <= i < j < |rows| ==> rows[i].blockIndex < rows[j].blockIndex
    ensures (exists k :: 0 <= k < |rows| && rows[k].blockIndex == block) <==>
      Locatable(previous, current, native, blockSize, block)
  {
    var lo, hi := ReuseOpportunity.FirstRecomputed(native, blockSize),
      ReuseOpportunity.RecomputedEnd(native, blockSize, |current|);
    forall i, j | 0 <= i < j < |rows| ensures rows[i].blockIndex < rows[j].blockIndex {
      ReuseOpportunity.CandidatesIncrease(previous, current, blockSize, lo, hi, i, j);
    }
    if exists k :: 0 <= k < |rows| && rows[k].blockIndex == block {
      var k :| 0 <= k < |rows| && rows[k].blockIndex == block;
      assert candidates[k] in candidates;
      ListedIsLocatable(previous, current, native, blockSize, candidates[k]);
    }
    if Locatable(previous, current, native, blockSize, block) {
      var p: nat :| ReuseOpportunity.OccursAt(previous, ReuseOpportunity.BlockTokens(current, blockSize, block), p);
      var c := ReuseOpportunity.CandidateIsListed(previous, current, native, blockSize, block, p);
      var k :| 0 <= k < |candidates| && candidates[k] == c;
      assert rows[k].blockIndex == block;
    }
  }

  /** A listed candidate is the one its block yields, so its row is the row of the block. */
  lemma ListedIsBlockRow(previous: Prompt, current: Prompt, native: nat, blockSize: nat, c: ReuseOpportunity.Candidate)
    requires blockSize >= 1 && c in ReuseOpportunity.AllCandidates(previous, current, native, blockSize) &&
      c.previousStarts != []
    ensures Some(BlockFeatures.RowOf(c, BlockFeatures.EditOf(previous, current, blockSize), current, blockSize)) ==
      BlockRow(previous, current, blockSize, c.blockIndex)
  {
    var lo, hi := ReuseOpportunity.FirstRecomputed(native, blockSize),
      ReuseOpportunity.RecomputedEnd(native, blockSize, |current|);
    ReuseOpportunity.CandidatesAreExact(previous, current, blockSize, lo, hi, c);
  }

  lemma ListedIsLocatable(previous: Prompt, current: Prompt, native: nat, blockSize: nat, c: ReuseOpportunity.Candidate)
    requires blockSize >= 1 && !ReuseOpportunity.Rejects(previous, current, native, blockSize)
    requires c in ReuseOpportunity.AllCandidates(previous, current, native, blockSize)
    ensures Locatable(previous, current, native, blockSize, c.blockIndex)
  {
    var lo, hi := ReuseOpportunity.FirstRecomputed(native, blockSize),
      ReuseOpportunity.RecomputedEnd(native, blockSize, |current|);
    ReuseOpportunity.CandidatesAreExact(previous, current, blockSize, lo, hi, c);
    ReuseOpportunity.CandidateMeaning(previous, current, blockSize, c.blockIndex);
    ReuseOpportunity.BlockPastHit(native, blockSize, c.blockIndex);
  }

  // ---------- training rows ----------

  datatype Row = Row(trace: string, transition: string, features: BlockFeatures.Features, verdict: Label)

  predicate Kept(t: Trial, stable: bool) {
    stable && t.verdict.Some?
  }

  function KeptTrials(trials: seq<Trial>, stable: bool): seq<Trial> {
    if |trials| == 0 then []
    else
      KeptTrials(trials[..|trials| - 1], stable)
      + if Kept(trials[|trials| - 1], stable) then [trials[|trials| - 1]] else []
  }

  lemma {:induction false} KeptNext(trials: seq<Trial>, n: nat, stable: bool)
    requires n < |trials|
    ensures KeptTrials(trials[..n + 1], stable) == KeptTrials(trials[..n], stable) +
      if Kept(trials[n], stable) then [trials[n]] else []
  {
    assert trials[..n + 1][..n] == trials[..n];
  }

  /** Exactly the labelled trials of a stable batch are kept, in their order; `at` lists their positions. */
  lemma KeptPositions(trials: seq<Trial>, stable: bool) returns (at: seq<nat>)
    ensures Increasing(at) && forall i: nat :: i in at <==> i < |trials| && stable && trials[i].verdict.Some?
    ensures |at| == |KeptTrials(trials, stable)|
    ensures forall k :: 0 <= k < |at| ==> at[k] < |trials| && KeptTrials(trials, stable)[k] == trials[at[k]]
  {
    at := KeptSelected(trials, stable, (t: Trial) => Kept(t, stable));
  }

  lemma {:induction false} KeptSelected(trials: seq<Trial>, stable: bool, p: Trial -> bool) returns (at: seq<nat>)
    requires forall t :: p(t) <==> Kept(t, stable)
    ensures Selects(at, trials, p) && |at| == |KeptTrials(trials, stable)|
    ensures forall k :: 0 <= k < |at| ==> at[k] < |trials| && KeptTrials(trials, stable)[k] == trials[at[k]]
  {
    if |trials| == 0 {
      at := [];
    } else {
      var n := |trials| - 1;
      var front := KeptSelected(trials[..n], stable, p);
      SelectsNext(front, trials, p);
      at := front + if p(trials[n]) then [n] else [];
    }
  }

  /** The row of a trial: its case, the features of its block and its label. */
  predicate RowOf(row: Row, t: Trial) {
    && row.trace == t.intervention.trace && row.transition == t.intervention.transition
    && row.features.blockIndex == t.intervention.reused && Some(row.verdict) == t.verdict
  }

  /** The features that a batch must record, as a function of the trial. */
  ghost function FeatureSpec(blockSize: int): Trial -> Option<BlockFeatures.Features> {
    (t: Trial) => TestedFeatures(t, blockSize)
  }

  ghost predicate Specifies(spec: Trial -> Option<BlockFeatures.Features>, blockSize: int) {
    forall t {:trigger TestedFeatures(t, blockSize)} :: spec(t) == TestedFeatures(t, blockSize)
  }

  /** Each row carries the given features of its trial. */
  ghost predicate Carries(rows: seq<Row>, kept: seq<Trial>, spec: Trial -> Option<BlockFeatures.Features>) {
    |rows| == |kept| && forall k :: 0 <= k < |rows| ==> Some(rows[k].features) == spec(kept[k])
  }

  /** One row per kept trial, in order. */
  predicate RowsOf(rows: seq<Row>, kept: seq<Trial>) {
    |rows| == |kept| && forall k :: 0 <= k < |rows| ==> RowOf(rows[k], kept[k])
  }

  /** The blocks a batch tried, as the saving step reads them back. */
  function Tried(b: Batch): (s: seq<int>)
    ensures |s| == |b.trials| && forall k :: 0 <= k < |s| ==> s[k] == b.trials[k].intervention.reused
  {
    seq(|b.trials|, k requires 0 <= k < |b.trials| => b.trials[k].intervention.reused)
  }

  predicate ValidSubset(b: Batch) {
    && Tried(b) != [] && Tried(b) == b.targets && Increasing(Tried(b))
    && forall x :: x in Tried(b) ==> x in b.discovery.testable
  }

  predicate Belongs(t: Trial, d: Discovery) {
    t.intervention.trace == d.trace && t.intervention.transition == d.transition &&
      t.intervention.candidates == d.candidates
  }

  /** The label agrees with the evidence it was drawn from. */
  predicate Consistent(t: Trial) {
    t.evidence.Valid() && t.verdict.Some? && t.result.decision == Some(t.verdict.value.decision)
  }

  ghost predicate Passes(t: Trial, d: Discovery, stable: bool) {
    Belongs(t, d) && (Kept(t, stable) ==>
      Consistent(t) && HasFeature(t, d.blockSize) && d.trace != "" && d.transition != "")
  }

  /** What saving demands of a batch. */
  ghost predicate Savable(b: Batch) {
    ValidSubset(b) && forall k :: 0 <= k < |b.trials| ==> Passes(b.trials[k], b.discovery, b.stable)
  }

  /** The row of one kept trial. */
  method LabelledRow(t: Trial, d: Discovery, ghost spec: Trial -> Option<BlockFeatures.Features>)
    returns (r: Result<Row>)
    requires Belongs(t, d) && t.verdict.Some? && Specifies(spec, d.blockSize)
    ensures r.Ok? <==> Passes(t, d, true)
    ensures r.Ok? ==> RowOf(r.value, t) && Some(r.value.features) == spec(t)
  {
    if !t.evidence.Valid() || t.result.decision != Some(t.verdict.value.decision) {
      return Err("label is inconsistent with its execution evidence");
    }
    var features := ExtractTrialFeature(t, d.blockSize);
    if features.Err? {
      return Err(features.reason);
    }
    if d.trace == "" || d.transition == "" {
      return Err("empty identifier");
    }
    return Ok(Row(d.trace, d.transition, features.value, t.verdict.value));
  }

  /** One trial: refused if it is foreign, passed over if it is not kept, and a row otherwise. */
  method TrialRow(t: Trial, d: Discovery, stable: bool, ghost spec: Trial -> Option<BlockFeatures.Features>)
    returns (r: Result<Option<Row>>)
    requires Specifies(spec, d.blockSize)
    ensures r.Ok? <==> Passes(t, d, stable)
    ensures r.Ok? ==> (r.value.Some? <==> Kept(t, stable))
    ensures r.Ok? && r.value.Some? ==> RowOf(r.value.value, t) && Some(r.value.value.features) == spec(t)
  {
    var i := t.intervention;
    if i.trace != d.trace || i.transition != d.transition || i.candidates != d.candidates {
      return Err("trial result does not belong to this discovery");
    }
    if !stable || t.verdict.None? {
      return Ok(None);
    }
    var row := LabelledRow(t, d, spec);
    return if row.Ok? then Ok(Some(row.value)) else Err(row.reason);
  }

  lemma RowsNext(rows: seq<Row>, kept: seq<Trial>, spec: Trial -> Option<BlockFeatures.Features>, row: Option<Row>,
                 t: Trial)
    requires RowsOf(rows, kept) && Carries(rows, kept, spec)
    requires row.Some? ==> RowOf(row.value, t) && Some(row.value.features) == spec(t)
    ensures var next, more := rows + if row.Some? then [row.value] else [], kept + if row.Some? then [t] else [];
      RowsOf(next, more) && Carries(next, more, spec)
  {
  }

  /** The loop over the trials; a trial that is not kept is passed over. */
  method CollectRows(b: Batch, ghost spec: Trial -> Option<BlockFeatures.Features>) returns (r: Result<seq<Row>>)
    requires Specifies(spec, b.discovery.blockSize)
    ensures r.Ok? ==> forall k :: 0 <= k < |b.trials| ==> Passes(b.trials[k], b.discovery, b.stable)
    ensures r.Err? ==> exists k :: 0 <= k < |b.trials| && !Passes(b.trials[k], b.discovery, b.stable)
    ensures r.Ok? ==>
      RowsOf(r.value, KeptTrials(b.trials, b.stable)) && Carries(r.value, KeptTrials(b.trials, b.stable), spec)
  {
    var rows: seq<Row> := [];
    for n := 0 to |b.trials|
      invariant RowsOf(rows, KeptTrials(b.trials[..n], b.stable)) &&
        Carries(rows, KeptTrials(b.trials[..n], b.stable), spec)
      invariant forall k :: 0 <= k < n ==> Passes(b.trials[k], b.discovery, b.stable)
    {
      KeptNext(b.trials, n, b.stable);
      var row := TrialRow(b.trials[n], b.discovery, b.stable, spec);
      if row.Err? {
        return Err(row.reason);
      }
      RowsNext(rows, KeptTrials(b.trials[..n], b.stable), spec, row.value, b.trials[n]);
      rows := rows + if row.value.Some? then [row.value.value] else [];
    }
    assert b.trials[..|b.trials|] == b.trials;
    return Ok(rows);
  }

  /** Rows are saved exactly for a savable batch, and then they are the rows of the kept trials with their features. */
  method SaveTrainingRows(b: Batch) returns (r: Result<seq<Row>>)
    ensures r.Ok? <==> Savable(b)
    ensures r.Ok? ==> RowsOf(r.value, KeptTrials(b.trials, b.stable))
    ensures r.Ok? ==> Carries(r.value, KeptTrials(b.trials, b.stable), FeatureSpec(b.discovery.blockSize))
  {
    var blocks := Tried(b);
    ElementsSubset(blocks, b.discovery.testable);
    if blocks == [] || blocks != b.targets || !Increasing(blocks) ||
       !(Elements(blocks) <= Elements(b.discovery.testable)) {
      return Err("trial results are not a valid discovered block subset");
    }
    r := CollectRows(b, FeatureSpec(b.discovery.blockSize));
  }

  /** What is left to go wrong for a recorded trial that is kept: its tokens, its native hit, its position. */
  ghost predicate Featured(t: Trial, blockSize: int) {
    && HasTokens(t.donor) && HasTokens(t.active) && PlanOf(t.active).Some? && PlanOf(t.active).value.native.Some?
    && Locatable(t.donor.tokens.value, t.active.tokens.value, PlanOf(t.active).value.native.value, blockSize,
                 t.intervention.reused)
  }

  /**
   For a batch the runner recorded, the subset, membership, consistency and plan checks of the saving
   step can never fire.
   */
  lemma RecordedIsSavableIff(b: Batch)
    requires Recorded(b)
    ensures Savable(b) <==>
      b.targets != [] && forall k :: 0 <= k < |b.trials| && Kept(b.trials[k], b.stable) ==>
        Featured(b.trials[k], b.discovery.blockSize)
  {
    assert Tried(b) == b.targets;
    forall k | 0 <= k < |b.trials| && Kept(b.trials[k], b.stable)
      ensures Consistent(b.trials[k]) && PlanOf(b.trials[k].active).Some?
      ensures PlanOf(b.trials[k].active).value.blockSize == Some(b.discovery.blockSize)
    {
      assert Sound(b.trials[k], b.discovery.blockSize);
      EvidenceIsolatesOneBlock(b.trials[k].intervention, b.discovery.blockSize, b.trials[k].active.metrics);
    }
  }

  // ---------- summary counts ----------

  predicate Invalid(t: Trial) {
    !t.result.validReference || !t.result.validExecution
  }

  predicate Abstained(t: Trial, stable: bool) {
    t.result.validReference && t.result.validExecution && (!stable || t.result.decision.None?)
  }

  predicate Decided(t: Trial, stable: bool, decision: Decision) {
    Kept(t, stable) && t.verdict.value.decision == decision
  }

  function CountTrials(trials: seq<Trial>, p: Trial -> bool): nat {
    if |trials| == 0 then 0 else CountTrials(trials[..|trials| - 1], p) + if p(trials[|trials| - 1]) then 1 else 0
  }

  datatype Summary = Summary(trials: nat, rows: nat, invalid: nat, abstained: nat, drifted: nat, repair: nat,
                             reuse: nat)

  function SummaryOf(b: Batch, rows: nat): Summary {
    Summary(
      |b.trials|, rows,
      CountTrials(b.trials, Invalid),
      CountTrials(b.trials, (t: Trial) => Abstained(t, b.stable)),
      CountTrials(b.trials, (t: Trial) => t.exactMatch == Some(false)),
      CountTrials(b.trials, (t: Trial) => Decided(t, b.stable, Repair)),
      CountTrials(b.trials, (t: Trial) => Decided(t, b.stable, Reuse)))
  }

  lemma {:induction false} CountIsPositions(trials: seq<Trial>, p: Trial -> bool)
    ensures CountTrials(trials, p) == |Where(trials, p)|
  {
    if |trials| == 0 {
    } else {
      CountIsPositions(trials[..|trials| - 1], p);
      WhereLast(trials, p);
    }
  }

  /** What the summary counts of the evidence: unusable trials, undecided ones, and drifted references. */
  lemma SummaryCountsEvidence(b: Batch, rows: nat, s: Summary)
    requires s == SummaryOf(b, rows)
    ensures s.trials == |b.trials| && s.rows == rows
    ensures s.invalid == |set k: nat | k < |b.trials| &&
      !(b.trials[k].result.validReference && b.trials[k].result.validExecution)|
    ensures s.abstained == |set k: nat | k < |b.trials| &&
      b.trials[k].result.validReference && b.trials[k].result.validExecution &&
      (b.stable ==> b.trials[k].result.decision.None?)|
    ensures s.drifted == |set k: nat | k < |b.trials| && b.trials[k].exactMatch == Some(false)|
  {
    var abstained := (t: Trial) => Abstained(t, b.stable);
    var drifted := (t: Trial) => t.exactMatch == Some(false);
    CountIsPositions(b.trials, Invalid);
    CountIsPositions(b.trials, abstained);
    CountIsPositions(b.trials, drifted);
    assert Where(b.trials, Invalid) == set k: nat | k < |b.trials| &&
      !(b.trials[k].result.validReference && b.trials[k].result.validExecution);
    assert Where(b.trials, abstained) == set k: nat | k < |b.trials| &&
      b.trials[k].result.validReference && b.trials[k].result.validExecution &&
      (b.stable ==> b.trials[k].result.decision.None?);
    assert Where(b.trials, drifted) == set k: nat | k < |b.trials| && b.trials[k].exactMatch == Some(false);
  }

  /** What it counts of the labels: those of a stable batch, by decision. */
  lemma SummaryCountsLabels(b: Batch, rows: nat, s: Summary)
    requires s == SummaryOf(b, rows)
    ensures s.repair == |LabelledBy(b, Repair)| && s.reuse == |LabelledBy(b, Reuse)|
  {
    var repair, reuse := (t: Trial) => Decided(t, b.stable, Repair), (t: Trial) => Decided(t, b.stable, Reuse);
    CountIsPositions(b.trials, repair);
    CountIsPositions(b.trials, reuse);
    assert Where(b.trials, repair) == LabelledBy(b, Repair);
    assert Where(b.trials, reuse) == LabelledBy(b, Reuse);
  }

  /** The trials of a stable batch that were labelled with a decision. */
  ghost function LabelledBy(b: Batch, d: Decision): set<nat> {
    set k: nat | k < |b.trials| && b.stable && b.trials[k].verdict.Some? && b.trials[k].verdict.value.decision == d
  }

  /** The check that consolidation applies to every case summary. */
  predicate Balanced(s: Summary) {
    s.rows + s.invalid + s.abstained == s.trials && s.rows == s.repair + s.reuse
  }

  /** Rows of one decision. */
  function RowsDeciding(rows: seq<Row>, d: Decision): nat {
    if |rows| == 0 then 0
    else RowsDeciding(rows[..|rows| - 1], d) + if rows[|rows| - 1].verdict.decision == d then 1 else 0
  }

  lemma {:induction false} RowsDecidingIsPositions(rows: seq<Row>, d: Decision)
    ensures RowsDeciding(rows, d) == |set k: nat | k < |rows| && rows[k].verdict.decision == d|
  {
    var p := (row: Row) => row.verdict.decision == d;
    CountDeciding(rows, d, p);
    assert Where(rows, p) == set k: nat | k < |rows| && rows[k].verdict.decision == d;
  }

  lemma {:induction false} CountDeciding(rows: seq<Row>, d: Decision, p: Row -> bool)
    requires forall row :: p(row) <==> row.verdict.decision == d
    ensures RowsDeciding(rows, d) == |Where(rows, p)|
  {
    if |rows| == 0 {
    } else {
      CountDeciding(rows[..|rows| - 1], d, p);
      WhereLast(rows, p);
    }
  }

  /** Every trial is a row, invalid or abstained, and every row repairs or reuses. */
  lemma {:induction false} TrialsPartition(trials: seq<Trial>, stable: bool, blockSize: int,
                                           abstained: Trial -> bool, repair: Trial -> bool,
                                           reuse: Trial -> bool)
    requires forall k :: 0 <= k < |trials| ==> Sound(trials[k], blockSize)
    requires forall t :: abstained(t) == Abstained(t, stable)
    requires forall t :: repair(t) == Decided(t, stable, Repair)
    requires forall t :: reuse(t) == Decided(t, stable, Reuse)
    ensures |KeptTrials(trials, stable)| + CountTrials(trials, Invalid) + CountTrials(trials, abstained) == |trials|
    ensures |KeptTrials(trials, stable)| == CountTrials(trials, repair) + CountTrials(trials, reuse)
  {
    if |trials| == 0 {
    } else {
      TrialsPartition(trials[..|trials| - 1], stable, blockSize, abstained, repair, reuse);
      assert Sound(trials[|trials| - 1], blockSize);
    }
  }

  /** The saved rows carry the decisions that the summary counts. */
  lemma {:induction false} RowsCarryDecisions(rows: seq<Row>, trials: seq<Trial>, stable: bool, d: Decision,
                                              decided: Trial -> bool)
    requires RowsOf(rows, KeptTrials(trials, stable)) && forall t :: decided(t) == Decided(t, stable, d)
    ensures RowsDeciding(rows, d) == CountTrials(trials, decided)
    decreases |trials|
  {
    if |trials| == 0 {
    } else {
      var front := trials[..|trials| - 1];
      if Kept(trials[|trials| - 1], stable) {
        assert KeptTrials(trials, stable)[..|rows| - 1] == KeptTrials(front, stable);
        RowsCarryDecisions(rows[..|rows| - 1], front, stable, d, decided);
      } else {
        assert KeptTrials(trials, stable) == KeptTrials(front, stable);
        RowsCarryDecisions(rows, front, stable, d, decided);
      }
    }
  }

  /** An unstable reference leaves no rows, and everything valid abstains. */
  lemma {:induction false} UnstableKeepsNothing(trials: seq<Trial>)
    ensures KeptTrials(trials, false) == []
  {
    if |trials| == 0 {
    } else {
      UnstableKeepsNothing(trials[..|trials| - 1]);
    }
  }

  lemma {:induction false} NoneTallied(trials: seq<Trial>, p: Trial -> bool)
    requires forall k :: 0 <= k < |trials| ==> !p(trials[k])
    ensures CountTrials(trials, p) == 0
  {
    if |trials| == 0 {
    } else {
      NoneTallied(trials[..|trials| - 1], p);
    }
  }

  /** The summary of a recorded batch balances and agrees with its rows. */
  lemma {:induction false} SummaryBalances(b: Batch, rows: seq<Row>)
    requires Recorded(b) && RowsOf(rows, KeptTrials(b.trials, b.stable))
    ensures Balanced(SummaryOf(b, |rows|))
    ensures RowsDeciding(rows, Repair) == SummaryOf(b, |rows|).repair &&
      RowsDeciding(rows, Reuse) == SummaryOf(b, |rows|).reuse
    ensures !b.stable ==> rows == [] && SummaryOf(b, |rows|).abstained == |b.trials| - SummaryOf(b, |rows|).invalid
  {
    var abstained := (t: Trial) => Abstained(t, b.stable);
    var repair, reuse := (t: Trial) => Decided(t, b.stable, Repair), (t: Trial) => Decided(t, b.stable, Reuse);
    TrialsPartition(b.trials, b.stable, b.discovery.blockSize, abstained, repair, reuse);
    RowsCarryDecisions(rows, b.trials, b.stable, Repair, repair);
    RowsCarryDecisions(rows, b.trials, b.stable, Reuse, reuse);
    if !b.stable {
      UnstableKeepsNothing(b.trials);
    }
  }

  // ---------- the workflow of one case ----------

  /** Distinct blocks, all of one trace and transition. */
  predicate OneCase(rows: seq<Row>, trace: string, transition: string) {
    && (forall k :: 0 <= k < |rows| ==> rows[k].trace == trace && rows[k].transition == transition)
    && forall i, j :: 0 <= i < j < |rows| ==> rows[i].features.blockIndex < rows[j].features.blockIndex
  }

  /** Trials of one discovery whose blocks increase up to `last`. */
  predicate Ascending(kept: seq<Trial>, d: Discovery, last: int) {
    && (forall k :: 0 <= k < |kept| ==> Belongs(kept[k], d) && kept[k].intervention.reused <= last)
    && forall i, j :: 0 <= i < j < |kept| ==> kept[i].intervention.reused < kept[j].intervention.reused
  }

  /** One more trial, kept or not, with a later block. */
  lemma AscendingNext(kept: seq<Trial>, d: Discovery, last: int, t: Trial, keep: bool)
    requires Ascending(kept, d, last) && Belongs(t, d) && last < t.intervention.reused
    ensures Ascending(kept + if keep then [t] else [], d, t.intervention.reused)
  {
  }

  lemma TargetsAscend(b: Batch, k: nat)
    requires Recorded(b) && k < |b.trials|
    ensures Belongs(b.trials[k], b.discovery) && b.trials[k].intervention.reused == b.targets[k]
    ensures (if k == 0 then -1 else b.targets[k - 1]) < b.targets[k]
  {
    assert b.targets[k] in b.targets;
  }

  lemma {:induction false} KeptInOrder(b: Batch, n: nat)
    requires Recorded(b) && n <= |b.trials|
    ensures Ascending(KeptTrials(b.trials[..n], b.stable), b.discovery, if n == 0 then -1 else b.targets[n - 1])
  {
    if n == 0 {
    } else {
      var t, last := b.trials[n - 1], if n == 1 then -1 else b.targets[n - 2];
      TargetsAscend(b, n - 1);
      KeptInOrder(b, n - 1);
      KeptNext(b.trials, n - 1, b.stable);
      AscendingNext(KeptTrials(b.trials[..n - 1], b.stable), b.discovery, last, t, Kept(t, b.stable));
    }
  }

  lemma RowsFormOneCase(b: Batch, rows: seq<Row>)
    requires Recorded(b) && RowsOf(rows, KeptTrials(b.trials, b.stable))
    ensures OneCase(rows, b.discovery.trace, b.discovery.transition)
  {
    KeptInOrder(b, |b.trials|);
    assert b.trials[..|b.trials|] == b.trials;
    var kept := KeptTrials(b.trials, b.stable);
    assert forall k :: 0 <= k < |rows| ==> Belongs(kept[k], b.discovery) && RowOf(rows[k], kept[k]);
  }

  /** The frozen plan a live discovery is compared with. */
  datatype Expectation = Expectation(blockSize: Option<int>, candidates: Option<seq<int>>, testable: Option<seq<int>>)

  predicate Meets(d: Discovery, e: Expectation) {
    && (e.blockSize.Some? ==> d.blockSize == e.blockSize.value)
    && (e.candidates.Some? ==> d.candidates == e.candidates.value) &&
      (e.testable.Some? ==> d.testable == e.testable.value)
  }

  datatype CaseResult = CaseResult(trace: string, transition: string, summary: Summary, rows: seq<Row>)

  /** What the workflow demands of a discovery before it runs a trial. */
  predicate Accepted(d: Discovery, edited: Observation, e: Expectation, blocks: seq<int>) {
    && Meets(d, e) && d.testable != [] && Text(edited.output) != ""
    && blocks != [] && Increasing(blocks) && forall x :: x in blocks ==> x in d.testable
  }

  /** The checks of the live discovery, one after the other. */
  predicate CheckLive(d: Discovery, edited: Observation, e: Expectation, blocks: seq<int>)
    ensures CheckLive(d, edited, e, blocks) <==> Accepted(d, edited, e, blocks)
  {
    ElementsSubset(blocks, d.testable);
    if e.blockSize.Some? && e.blockSize.value != d.blockSize then false
    else if e.candidates.Some? && e.candidates.value != d.candidates then false
    else if e.testable.Some? && e.testable.value != d.testable then false
    else if d.testable == [] then false
    else if edited.output.None? || edited.output.value == "" then false
    else !(blocks == [] || !Increasing(blocks) || !(Elements(blocks) <= Elements(d.testable)))
  }

  /** No trial of the plan fails, and each labelled one has features. */
  ghost predicate Completes(d: Discovery, blocks: seq<int>, s: Settings, respond: Intervention -> Responses,
                            stable: bool) {
    forall b :: b in blocks ==>
      && !RaisesFor(d, b, s, respond) && TrialFor(d, b, s, respond).Ok?
      && (Kept(TrialFor(d, b, s, respond).value, stable) ==> Featured(TrialFor(d, b, s, respond).value, d.blockSize))
  }

  /** A completed case: a balanced summary that agrees with rows of distinct blocks, and no drift. */
  predicate Completed(c: CaseResult) {
    && Balanced(c.summary) && c.summary.rows == |c.rows| && OneCase(c.rows, c.trace, c.transition)
    && c.summary.repair == RowsDeciding(c.rows, Repair) && c.summary.reuse == RowsDeciding(c.rows, Reuse) &&
      c.summary.drifted == 0
  }

  /** The trials of a batch are those that the plan and the answers determine. */
  ghost predicate Ran(b: Batch, s: Settings, respond: Intervention -> Responses) {
    |b.trials| == |b.targets| && forall k :: 0 <= k < |b.trials| ==>
      Ok(b.trials[k]) == TrialFor(b.discovery, b.targets[k], s, respond)
  }

  /** A case reports a batch: its rows are those of the kept trials, and its summary counts all of them. */
  ghost predicate Reports(c: CaseResult, b: Batch) {
    && c.trace == b.discovery.trace && c.transition == b.discovery.transition
    && RowsOf(c.rows, KeptTrials(b.trials, b.stable))
    && Carries(c.rows, KeptTrials(b.trials, b.stable), FeatureSpec(b.discovery.blockSize))
    && c.summary == SummaryOf(b, |c.rows|)
  }

  /**
   One case from its discovery to its summary. The edited answer of the discovery is both the shared
   reference and the output every trial must match. Stated are when it succeeds, that it reports exactly the batch of
   trials that ran, and that every success is a completed case.
   */
  method RunWorkflow(d: Discovery, edited: Observation, e: Expectation, selected: Option<seq<int>>,
                     requireMatch: bool, requireExact: bool,
                     respond: Intervention -> Responses, final: Observation, ledgerSucceeded: bool)
    returns (r: Result<CaseResult>, ghost ran: Batch)
    ensures r.Ok? <==>
      && Accepted(d, edited, e, Selected(d, selected)) && ValidDiscovery(d) && final.recomputed && ledgerSucceeded
      && Completes(d, Selected(d, selected), Settings(Some(edited), edited.output, requireMatch, requireExact), respond,
                   final.stopped && final.output == edited.output)
    ensures r.Ok? ==>
      && ran.discovery == d && ran.targets == Selected(d, selected)
      && (ran.stable <==> final.stopped && final.output == edited.output)
    ensures r.Ok? ==> Ran(ran, Settings(Some(edited), edited.output, requireMatch, requireExact), respond)
    ensures r.Ok? ==> Reports(r.value, ran) && Completed(r.value)
    ensures r.Ok? && !ran.stable ==> r.value.rows == []
  {
    var blocks := Selected(d, selected);
    ran := Batch(d, [], blocks, false);
    if !CheckLive(d, edited, e, blocks) {
      return Err("discovery differs from the plan or has nothing to test"), ran;
    }
    var settings := Settings(Some(edited), edited.output, requireMatch, requireExact);
    var batch := RunTrials(d, Some(blocks), settings, respond, final);
    if batch.Err? {
      SubsetIsValid(d, blocks);
      return Err(batch.reason), ran;
    }
    ran := batch.value;
    var rows := SaveTrainingRows(batch.value);
    BatchCompletes(batch.value, settings, respond);
    if rows.Err? {
      return Err(rows.reason), ran;
    }
    if !ledgerSucceeded {
      return Err("request ledger is incomplete or failed"), ran;
    }
    NoDrift(batch.value, settings, respond);
    SummaryBalances(batch.value, rows.value);
    RowsFormOneCase(batch.value, rows.value);
    return Ok(CaseResult(d.trace, d.transition, SummaryOf(batch.value, |rows.value|), rows.value)), ran;
  }

  /** The workflow's own subset check implies the one of the runner. */
  lemma SubsetIsValid(d: Discovery, blocks: seq<int>)
    requires Increasing(blocks) && forall x :: x in blocks ==> x in d.testable
    ensures ValidDiscovery(d) ==> ValidSelection(d, blocks)
  {
  }

  lemma BatchCompletes(b: Batch, s: Settings, respond: Intervention -> Responses)
    requires Recorded(b) && b.targets != []
    requires forall k :: 0 <= k < |b.trials| ==> Ok(b.trials[k]) == TrialFor(b.discovery, b.targets[k], s, respond)
    ensures Savable(b) <==> Completes(b.discovery, b.targets, s, respond, b.stable)
  {
    RecordedIsSavableIff(b);
    forall x | x in b.targets
      ensures !RaisesFor(b.discovery, x, s, respond) && TrialFor(b.discovery, x, s, respond).Ok?
    {
      var k :| 0 <= k < |b.targets| && b.targets[k] == x;
      assert Ok(b.trials[k]) == TrialFor(b.discovery, x, s, respond);
      TrialRaisesIff(InterventionFor(b.discovery, x), b.discovery.blockSize, s,
                     respond(InterventionFor(b.discovery, x)));
    }
    if Savable(b) {
      forall x | x in b.targets && Kept(TrialFor(b.discovery, x, s, respond).value, b.stable)
        ensures Featured(TrialFor(b.discovery, x, s, respond).value, b.discovery.blockSize)
      {
        var k :| 0 <= k < |b.targets| && b.targets[k] == x;
        assert Ok(b.trials[k]) == TrialFor(b.discovery, x, s, respond);
      }
    }
    if Completes(b.discovery, b.targets, s, respond, b.stable) {
      forall k | 0 <= k < |b.trials| && Kept(b.trials[k], b.stable)
        ensures Featured(b.trials[k], b.discovery.blockSize)
      {
        assert b.targets[k] in b.targets;
      }
    }
  }

  lemma NoDrift(b: Batch, s: Settings, respond: Intervention -> Responses)
    requires s.shared.Some? && s.required == s.shared.value.output && s.required.Some?
    requires |b.trials| == |b.targets|
    requires forall k :: 0 <= k < |b.trials| ==> Ok(b.trials[k]) == TrialFor(b.discovery, b.targets[k], s, respond)
    ensures CountTrials(b.trials, (t: Trial) => t.exactMatch == Some(false)) == 0
  {
    var drifted := (t: Trial) => t.exactMatch == Some(false);
    forall k | 0 <= k < |b.trials| ensures !drifted(b.trials[k]) {
      var i := InterventionFor(b.discovery, b.targets[k]);
      TrialOutcome(i, b.discovery.blockSize, s, respond(i));
    }
    NoneTallied(b.trials, drifted);
  }
}
