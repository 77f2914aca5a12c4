/** Single-block counterfactual trials: execution evidence, labels and batches of trials. */
module CounterfactualTrials {
  import opened Common
  import opened TokenEdges

  datatype Decision = Repair | Reuse

  /** Reuse one candidate block and repair all the others. */
  datatype Intervention = Intervention(trace: string, transition: string, candidates: seq<int>, reused: int)

  // ---------- execution evidence ----------

  datatype PlanCandidate = PlanCandidate(target: Option<int>, resident: bool)

  datatype Plan = Plan(
    blockSize: Option<int>, transition: Option<string>, reused: Option<int>, native: Option<int>,
    candidates: seq<PlanCandidate>)

  /** What the server reports; an absent field is `None` or `false`. */
  datatype Metrics = Metrics(
    selector: Option<string>, plan: Option<Plan>, candidateTokens: Option<int>, repairTokens: Option<int>,
    skippedTokens: Option<int>, copiedBlocks: Option<int>, copiedTokens: Option<int>, reusedRows: Option<int>,
    eligible: bool, reason: Option<string>, compactedBuilt: bool, metadataBuilt: bool, executed: bool)

  /** The checks of an execution, in the order they are made. */
  datatype Fault =
    | SelectorNotUsed | BlockSizeDiffers | TransitionDiffers | BlockDiffers | CandidatesDiffer | SourceNotResident
    | CandidateTokensDiffer | OthersNotRepaired | NotOneBlockSkipped | NotAllCopied | CopiedTokensDiffer | NotEligible
    | UnexpectedReason | NotOneBlockReused | BatchNotBuilt | MetadataNotBuilt | NotExecuted

  datatype Evidence = Evidence(fault: Option<Fault>) {
    predicate Valid() { fault.None? }
  }

  function EmptyPlan(): Plan {
    Plan(None, None, None, None, [])
  }

  function EmptyMetrics(): Metrics {
    Metrics(None, None, None, None, None, None, None, None, false, None, false, false, false)
  }

  /** The integer targets of a plan, as reported. */
  function Targets(candidates: seq<PlanCandidate>): seq<int> {
    if |candidates| == 0 then []
    else Targets(candidates[..|candidates| - 1]) + match candidates[|candidates| - 1].target
                                                   case Some(t) => [t]
                                                   case None => []
  }

  function Targeting(candidates: seq<PlanCandidate>, block: int): seq<PlanCandidate> {
    if |candidates| == 0 then []
    else Targeting(candidates[..|candidates| - 1], block)
         + if candidates[|candidates| - 1].target == Some(block) then [candidates[|candidates| - 1]] else []
  }

  predicate Sorted(s: seq<int>) {
    forall i, j :: 0 <= i < j < |s| ==> s[i] <= s[j]
  }

  /** The first failed check of the plan, in the order the source lists them. */
  function PlanFailure(i: Intervention, blockSize: int, selector: Option<string>, plan: Plan): Option<Fault> {
    var targets, chosen := Targets(plan.candidates), Targeting(plan.candidates, i.reused);
    if selector != Some("counterfactual_single_block") then Some(SelectorNotUsed)
    else if plan.blockSize != Some(blockSize) then Some(BlockSizeDiffers)
    else if plan.transition != Some(i.transition) then Some(TransitionDiffers)
    else if plan.reused != Some(i.reused) then Some(BlockDiffers)
    else if !(Sorted(i.candidates) && multiset(targets) == multiset(i.candidates)) then Some(CandidatesDiffer)
    else if !(|chosen| == 1 && chosen[0].resident) then Some(SourceNotResident)
    else None
  }

  /** The first failed check of the execution, after those of the plan. */
  function RunFailure(blocks: nat, blockSize: int, m: Metrics): Option<Fault> {
    if m.candidateTokens != Some(blocks * blockSize) then Some(CandidateTokensDiffer)
    else if m.repairTokens != Some((blocks - 1) * blockSize) then Some(OthersNotRepaired)
    else if m.skippedTokens != Some(blockSize) then Some(NotOneBlockSkipped)
    else if m.copiedBlocks != Some(blocks) then Some(NotAllCopied)
    else if m.copiedTokens != Some(blocks * blockSize) then Some(CopiedTokensDiffer)
    else if !m.eligible then Some(NotEligible)
    else if m.reason != Some("eligible") then Some(UnexpectedReason)
    else if m.reusedRows != Some(blockSize) then Some(NotOneBlockReused)
    else if !m.compactedBuilt then Some(BatchNotBuilt)
    else if !m.metadataBuilt then Some(MetadataNotBuilt)
    else if !m.executed then Some(NotExecuted)
    else None
  }

  function PlanIn(m: Metrics): Plan {
    if m.plan.Some? then m.plan.value else EmptyPlan()
  }

  function Failure(i: Intervention, blockSize: int, m: Metrics): Option<Fault> {
    var fault := PlanFailure(i, blockSize, m.selector, PlanIn(m));
    if fault.Some? then fault else RunFailure(|i.candidates|, blockSize, m)
  }

  function Validate(i: Intervention, blockSize: int, metrics: Option<Metrics>): Evidence {
    Evidence(Failure(i, blockSize, if metrics.Some? then metrics.value else EmptyMetrics()))
  }

  /** What each check asks of the reported metrics and plan. */
  predicate Passes(f: Fault, i: Intervention, blockSize: int, m: Metrics) {
    var plan, n := PlanIn(m), |i.candidates|;
    match f
    case SelectorNotUsed => m.selector == Some("counterfactual_single_block")
    case BlockSizeDiffers => plan.blockSize == Some(blockSize)
    case TransitionDiffers => plan.transition == Some(i.transition)
    case BlockDiffers => plan.reused == Some(i.reused)
    case CandidatesDiffer => Sorted(i.candidates) && multiset(Targets(plan.candidates)) == multiset(i.candidates)
    case SourceNotResident =>
      var chosen := Targeting(plan.candidates, i.reused);
      |chosen| == 1 && chosen[0].resident
    case CandidateTokensDiffer => m.candidateTokens == Some(n * blockSize)
    case OthersNotRepaired => m.repairTokens == Some((n - 1) * blockSize)
    case NotOneBlockSkipped => m.skippedTokens == Some(blockSize)
    case NotAllCopied => m.copiedBlocks == Some(n)
    case CopiedTokensDiffer => m.copiedTokens == Some(n * blockSize)
    case NotEligible => m.eligible
    case UnexpectedReason => m.reason == Some("eligible")
    case NotOneBlockReused => m.reusedRows == Some(blockSize)
    case BatchNotBuilt => m.compactedBuilt
    case MetadataNotBuilt => m.metadataBuilt
    case NotExecuted => m.executed
  }

  /** The place of a check in the source's list. */
  function Place(f: Fault): nat {
    match f
    case SelectorNotUsed => 0
    case BlockSizeDiffers => 1
    case TransitionDiffers => 2
    case BlockDiffers => 3
    case CandidatesDiffer => 4
    case SourceNotResident => 5
    case CandidateTokensDiffer => 6
    case OthersNotRepaired => 7
    case NotOneBlockSkipped => 8
    case NotAllCopied => 9
    case CopiedTokensDiffer => 10
    case NotEligible => 11
    case UnexpectedReason => 12
    case NotOneBlockReused => 13
    case BatchNotBuilt => 14
    case MetadataNotBuilt => 15
    case NotExecuted => 16
  }

  /** The reported fault is the first check in the list that does not pass. */
  lemma FailureIsFirst(i: Intervention, blockSize: int, m: Metrics, f: Fault, earlier: Fault)
    requires Failure(i, blockSize, m) == Some(f)
    ensures !Passes(f, i, blockSize, m)
    ensures Place(earlier) < Place(f) ==> Passes(earlier, i, blockSize, m)
  {
    PlanFailureIsFirst(i, blockSize, m, earlier);
    RunFailureIsFirst(i, blockSize, m, earlier);
  }

  lemma PlanFailureIsFirst(i: Intervention, blockSize: int, m: Metrics, earlier: Fault)
    ensures var fault := PlanFailure(i, blockSize, m.selector, PlanIn(m));
      && (fault.Some? ==> Place(fault.value) < 6 && !Passes(fault.value, i, blockSize, m))
      && (Place(earlier) < (if fault.Some? then Place(fault.value) else 6) ==> Passes(earlier, i, blockSize, m))
  {
  }

  lemma RunFailureIsFirst(i: Intervention, blockSize: int, m: Metrics, earlier: Fault)
    ensures var fault := RunFailure(|i.candidates|, blockSize, m);
      && (fault.Some? ==> Place(fault.value) >= 6 && !Passes(fault.value, i, blockSize, m))
      && (6 <= Place(earlier) < (if fault.Some? then Place(fault.value) else 17) ==>
            Passes(earlier, i, blockSize, m))
  {
  }

  lemma {:induction false} TargetingCounts(candidates: seq<PlanCandidate>, block: int)
    ensures multiset(Targets(candidates))[block] == |Targeting(candidates, block)|
  {
    if |candidates| == 0 {
    } else {
      TargetingCounts(candidates[..|candidates| - 1], block);
    }
  }

  lemma {:induction false} TargetsArePositions(candidates: seq<PlanCandidate>, block: int)
    ensures multiset(Targets(candidates))[block] ==
      |set k: nat | k < |candidates| && candidates[k].target == Some(block)|
  {
    var p := (c: PlanCandidate) => c.target == Some(block);
    CountTargeting(candidates, block, p);
    TargetingCounts(candidates, block);
    assert Where(candidates, p) == set k: nat | k < |candidates| && candidates[k].target == Some(block);
  }

  lemma {:induction false} CountTargeting(candidates: seq<PlanCandidate>, block: int, p: PlanCandidate -> bool)
    requires forall c :: p(c) <==> c.target == Some(block)
    ensures |Targeting(candidates, block)| == |Where(candidates, p)|
  {
    if |candidates| == 0 {
    } else {
      CountTargeting(candidates[..|candidates| - 1], block, p);
      WhereLast(candidates, p);
    }
  }

  /** A candidate of the plan that is the only one for its block, with its source in memory. */
  ghost predicate OnlyResident(candidates: seq<PlanCandidate>, block: int, k: nat) {
    && k < |candidates| && candidates[k].target == Some(block) && candidates[k].resident
    && forall j :: 0 <= j < |candidates| && candidates[j].target == Some(block) ==> j == k
  }

  lemma {:induction false} TargetingMembers(candidates: seq<PlanCandidate>, block: int, c: PlanCandidate)
    ensures c in Targeting(candidates, block) <==> c in candidates && c.target == Some(block)
  {
    if |candidates| == 0 {
    } else {
      var front, last := candidates[..|candidates| - 1], candidates[|candidates| - 1];
      TargetingMembers(front, block, c);
      assert candidates == front + [last];
    }
  }

  lemma OneTargeting(candidates: seq<PlanCandidate>, block: int)
    ensures |Targeting(candidates, block)| == 1 && Targeting(candidates, block)[0].resident <==>
      exists k: nat :: OnlyResident(candidates, block, k)
  {
    if |Targeting(candidates, block)| == 1 {
      var k := OnlyTarget(candidates, block);
    }
    if exists k: nat :: OnlyResident(candidates, block, k) {
      var k: nat :| OnlyResident(candidates, block, k);
      ResidentIsTargeted(candidates, block, k);
    }
  }

  lemma ResidentIsTargeted(candidates: seq<PlanCandidate>, block: int, k: nat)
    requires OnlyResident(candidates, block, k)
    ensures |Targeting(candidates, block)| == 1 && Targeting(candidates, block)[0].resident
  {
    TargetsArePositions(candidates, block);
    TargetingCounts(candidates, block);
    assert (set j: nat | j < |candidates| && candidates[j].target == Some(block)) == {k};
    TargetingMembers(candidates, block, candidates[k]);
  }

  lemma OnlyTarget(candidates: seq<PlanCandidate>, block: int) returns (k: nat)
    requires |Targeting(candidates, block)| == 1
    ensures Targeting(candidates, block)[0].resident ==> OnlyResident(candidates, block, k)
  {
    var chosen := Targeting(candidates, block);
    var at := set k: nat | k < |candidates| && candidates[k].target == Some(block);
    TargetsArePositions(candidates, block);
    TargetingCounts(candidates, block);
    TargetingMembers(candidates, block, chosen[0]);
    k :| 0 <= k < |candidates| && candidates[k] == chosen[0];
    SingletonOf(at, k);
    assert forall j :: 0 <= j < |candidates| && candidates[j].target == Some(block) ==> j in at;
  }

  lemma SingletonOf(s: set<nat>, k: nat)
    requires |s| == 1 && k in s
    ensures s == {k}
  {
    assert s == {k} + (s - {k});
  }

  /** The plan of the intervention: its transition and block, its candidates in order, and one resident source. */
  ghost predicate PlansFor(p: Plan, i: Intervention, blockSize: int) {
    && p.blockSize == Some(blockSize) && p.transition == Some(i.transition) && p.reused == Some(i.reused)
    && (forall a, b :: 0 <= a < b < |i.candidates| ==> i.candidates[a] <= i.candidates[b])
    && (forall x :: multiset(i.candidates)[x] == |Reporting(p, x)|)
    && exists k: nat :: OnlyResident(p.candidates, i.reused, k)
  }

  /** The positions of a plan that report a block as their target. */
  ghost function Reporting(p: Plan, x: int): set<nat> {
    set k: nat | k < |p.candidates| && p.candidates[k].target == Some(x)
  }

  /** The counts of an execution that copies all candidate blocks, repairs all but one and reuses that one. */
  ghost predicate CountsFor(m: Metrics, blocks: nat, blockSize: int) {
    && m.candidateTokens == Some(blocks * blockSize) && m.repairTokens == Some((blocks - 1) * blockSize)
    && m.skippedTokens == Some(blockSize) && m.copiedBlocks == Some(blocks)
    && m.copiedTokens == Some(blocks * blockSize) && m.reusedRows == Some(blockSize)
  }

  /** The server used the right selector and plan, counted as planned, and really executed the partial batch. */
  ghost predicate Isolates(m: Metrics, i: Intervention, blockSize: int) {
    && m.selector == Some("counterfactual_single_block") && m.plan.Some? && PlansFor(m.plan.value, i, blockSize)
    && CountsFor(m, |i.candidates|, blockSize)
    && m.eligible && m.reason == Some("eligible") && m.compactedBuilt && m.metadataBuilt && m.executed
  }

  ghost predicate Proven(metrics: Option<Metrics>, i: Intervention, blockSize: int) {
    metrics.Some? && Isolates(metrics.value, i, blockSize)
  }

  lemma SameTargets(p: Plan, i: Intervention)
    ensures multiset(Targets(p.candidates)) == multiset(i.candidates) <==>
      forall x :: multiset(i.candidates)[x] == |Reporting(p, x)|
  {
    forall x ensures multiset(Targets(p.candidates))[x] == |Reporting(p, x)| {
      TargetsArePositions(p.candidates, x);
    }
    if forall x :: multiset(i.candidates)[x] == |Reporting(p, x)| {
      forall x ensures multiset(Targets(p.candidates))[x] == multiset(i.candidates)[x] {
        assert multiset(i.candidates)[x] == |Reporting(p, x)|;
      }
    }
  }

  /** The plan checks together are what the intervention asks of the plan. */
  lemma PlanChecks(p: Plan, i: Intervention, blockSize: int)
    ensures PlansFor(p, i, blockSize) <==>
      && p.blockSize == Some(blockSize) && p.transition == Some(i.transition) && p.reused == Some(i.reused)
      && Sorted(i.candidates) && multiset(Targets(p.candidates)) == multiset(i.candidates)
      && |Targeting(p.candidates, i.reused)| == 1 && Targeting(p.candidates, i.reused)[0].resident
  {
    SameTargets(p, i);
    OneTargeting(p.candidates, i.reused);
  }

  lemma NoFailure(i: Intervention, blockSize: int, m: Metrics, p: Plan)
    requires m.plan == Some(p)
    ensures Failure(i, blockSize, m).None? <==>
      && m.selector == Some("counterfactual_single_block")
      && p.blockSize == Some(blockSize) && p.transition == Some(i.transition) && p.reused == Some(i.reused)
      && Sorted(i.candidates) && multiset(Targets(p.candidates)) == multiset(i.candidates)
      && |Targeting(p.candidates, i.reused)| == 1 && Targeting(p.candidates, i.reused)[0].resident
      && CountsFor(m, |i.candidates|, blockSize)
      && m.eligible && m.reason == Some("eligible") && m.compactedBuilt && m.metadataBuilt && m.executed
  {
  }

  /** Evidence is valid exactly when the reported metrics prove the intervention. */
  lemma EvidenceIsolatesOneBlock(i: Intervention, blockSize: int, metrics: Option<Metrics>)
    ensures Validate(i, blockSize, metrics).Valid() <==> Proven(metrics, i, blockSize)
  {
    if metrics.Some? && metrics.value.plan.Some? {
      NoFailure(i, blockSize, metrics.value, metrics.value.plan.value);
      PlanChecks(metrics.value.plan.value, i, blockSize);
    }
  }

  /** Valid evidence balances: one candidate is reused, and repaired and skipped tokens are the candidate tokens. */
  lemma EvidenceBalances(i: Intervention, blockSize: int, m: Metrics)
    requires Isolates(m, i, blockSize)
    ensures multiset(i.candidates)[i.reused] == 1
    ensures m.candidateTokens == m.copiedTokens == Some(m.repairTokens.value + m.skippedTokens.value)
    ensures m.reusedRows == m.skippedTokens
  {
    var p := m.plan.value;
    var k: nat :| OnlyResident(p.candidates, i.reused, k);
    assert Reporting(p, i.reused) == {k};
    OneBlockMore(|i.candidates|, blockSize);
  }

  lemma OneBlockMore(n: nat, blockSize: int)
    ensures (n - 1) * blockSize + blockSize == n * blockSize
  {
  }

  // ---------- scoring ----------

  datatype LabelResult = LabelResult(validReference: bool, validExecution: bool, decision: Option<Decision>,
                                     exactMatch: bool, reason: Reason)

  datatype Reason = ReferenceFailed | Unproven(fault: Fault) | NeedsBlindReview | QualityLost | QualityKept | Truncated

  datatype Label = Label(decision: Decision, reason: Reason)

  function Text(o: Option<string>): string {
    if o.Some? then o.value else ""
  }

  function Score(e: Evidence, reference: Option<string>, output: Option<string>, referencePassed: bool, passed: bool,
                 requireExact: bool)
    : (r: LabelResult)
  {
    var expected, answer := Text(reference), Text(output);
    var exact := expected != "" && expected == answer;
    if expected == "" || !referencePassed then
      LabelResult(false, e.Valid(), None, exact, ReferenceFailed)
    else if !e.Valid() then
      LabelResult(true, false, None, exact, Unproven(e.fault.value))
    else if requireExact && !exact then
      LabelResult(true, true, None, false, NeedsBlindReview)
    else if answer == "" || !passed then
      LabelResult(true, true, Some(Repair), exact, QualityLost)
    else
      LabelResult(true, true, Some(Reuse), exact, QualityKept)
  }

  function BlockLabel(r: LabelResult): Result<Label> {
    if !r.validReference || !r.validExecution then Err("cannot label a block from an invalid experiment")
    else if r.decision.None? then Err("valid counterfactual experiment has no decision")
    else Ok(Label(r.decision.value, r.reason))
  }

  // ---------- one trial ----------

  /** A recorded response; `recomputed` says that it was a full recompute without any cached computation. */
  datatype Observation = Observation(output: Option<string>, stopped: bool, recomputed: bool, tokens: Option<Prompt>,
                                     metrics: Option<Metrics>)

  datatype Comparison = Comparison(validReference: bool, passed: bool)

  /** What the caller fixes for every trial: a shared reference, the approved output, and how strict to be. */
  datatype Settings = Settings(shared: Option<Observation>, required: Option<string>, requireMatch: bool,
                               requireExact: bool)

  /** What the server and the quality comparison answer during one trial. */
  datatype Responses = Responses(reference: Observation, donor: Observation, active: Observation,
                                 comparison: Result<Comparison>)

  datatype Trial = Trial(
    intervention: Intervention, donor: Observation, active: Observation, evidence: Evidence,
    result: LabelResult, verdict: Option<Label>, exactMatch: Option<bool>)

  function Reference(s: Settings, w: Responses): Observation {
    if s.shared.Some? then s.shared.value else w.reference
  }

  /** A truncated intervention keeps its evidence but loses its decision. */
  function Withhold(r: LabelResult, truncated: bool): LabelResult {
    if truncated then r.(decision := None, reason := Truncated) else r
  }

  /** Scoring, withholding and labelling, once all observations are in. */
  function Conclude(i: Intervention, blockSize: int, s: Settings, w: Responses, c: Comparison,
                    exact: Option<bool>): Result<Trial> {
    var evidence := Validate(i, blockSize, w.active.metrics);
    var scored := Score(evidence, Reference(s, w).output, w.active.output, c.validReference, c.passed, s.requireExact);
    var result := Withhold(scored, !w.active.stopped);
    if result.decision.None? then Ok(Trial(i, w.donor, w.active, evidence, result, None, exact))
    else
      match BlockLabel(result)
      case Err(reason) => Err(reason)
      case Ok(v) => Ok(Trial(i, w.donor, w.active, evidence, result, Some(v), exact))
  }

  function RunTrial(i: Intervention, blockSize: int, s: Settings, w: Responses): Result<Trial> {
    var reference := Reference(s, w);
    var exact := if s.required.None? then None else Some(reference.output == s.required);
    if blockSize < 1 then Err("block_size must be positive")
    else if i.reused !in i.candidates then Err("reused block must be a candidate")
    else if s.shared.None? && !w.reference.recomputed then Err("reference was not recomputed")
    else if s.required.Some? && !reference.stopped then Err("reference was truncated")
    else if s.requireMatch && exact == Some(false) then Err("reference was not approved")
    else if !w.donor.recomputed then Err("donor was not recomputed")
    else if w.comparison.Err? then Err(w.comparison.reason)
    else Conclude(i, blockSize, s, w, w.comparison.value, exact)
  }

  /** When a trial gives no result. Labelling is not among the reasons. */
  predicate Raises(i: Intervention, blockSize: int, s: Settings, w: Responses) {
    || blockSize < 1 || i.reused !in i.candidates || (s.shared.None? && !w.reference.recomputed)
    || (s.required.Some? && (!Reference(s, w).stopped || (s.requireMatch && Reference(s, w).output != s.required)))
    || !w.donor.recomputed || w.comparison.Err?
  }

  /** What every recorded trial satisfies. */
  predicate Sound(t: Trial, blockSize: int) {
    && t.evidence == Validate(t.intervention, blockSize, t.active.metrics)
    && t.result.validExecution == t.evidence.Valid()
    && (t.verdict.Some? <==> t.result.decision.Some?)
    && (t.verdict.Some? ==>
          && t.verdict.value == Label(t.result.decision.value, t.result.reason)
          && t.result.validReference && t.result.validExecution && t.active.stopped)
  }

  /** A score has a decision exactly when both sides are valid and, in strict mode, the answers agree. */
  lemma ScoreOutcome(e: Evidence, reference: Option<string>, output: Option<string>,
                     referencePassed: bool, passed: bool,
                     requireExact: bool)
    ensures var r := Score(e, reference, output, referencePassed, passed, requireExact);
      && (r.validReference <==> Text(reference) != "" && referencePassed) && r.validExecution == e.Valid()
      && (r.decision.Some? <==>
        r.validReference && r.validExecution && (requireExact ==> Text(output) == Text(reference)))
      && (r.decision.Some? ==> (r.decision.value == Reuse <==> Text(output) != "" && passed))
  {
  }

  /** Once all observations are in, the label cannot fail. */
  lemma LabelNeverRaises(i: Intervention, blockSize: int, s: Settings, w: Responses,
                         c: Comparison, exact: Option<bool>)
    ensures Conclude(i, blockSize, s, w, c, exact).Ok?
  {
    ScoreOutcome(Validate(i, blockSize, w.active.metrics), Reference(s, w).output, w.active.output, c.validReference,
                 c.passed, s.requireExact);
  }

  /** A trial fails for exactly the listed reasons. */
  lemma TrialRaisesIff(i: Intervention, blockSize: int, s: Settings, w: Responses)
    ensures RunTrial(i, blockSize, s, w).Err? <==> Raises(i, blockSize, s, w)
  {
    if w.comparison.Ok? {
      LabelNeverRaises(i, blockSize, s, w, w.comparison.value,
                       if s.required.None? then None else Some(Reference(s, w).output == s.required));
    }
  }

  /** Why a trial got the result it has; the fault of an unproven execution is the first failed check. */
  ghost predicate Explains(r: LabelResult, stopped: bool, referencePassed: bool, evidence: Evidence, agreed: bool,
                           passed: bool)
  {
    match r.reason
    case Truncated => !stopped
    case ReferenceFailed => stopped && !referencePassed
    case Unproven(fault) => stopped && referencePassed && evidence.fault == Some(fault)
    case NeedsBlindReview => stopped && referencePassed && evidence.Valid() && !agreed
    case QualityLost => stopped && referencePassed && evidence.Valid() && agreed && !passed
    case QualityKept => stopped && referencePassed && evidence.Valid() && agreed && passed
  }

  /** The recorded reason and match of every finished trial are the true ones. */
  lemma TrialIsExplained(i: Intervention, blockSize: int, s: Settings, w: Responses)
    requires RunTrial(i, blockSize, s, w).Ok?
    ensures var t := RunTrial(i, blockSize, s, w).value;
      var expected, answer := Text(Reference(s, w).output), Text(w.active.output);
      && t.evidence == Validate(i, blockSize, w.active.metrics)
      && (t.result.exactMatch <==> expected != "" && answer == expected)
      && Explains(t.result, w.active.stopped, expected != "" && w.comparison.value.validReference, t.evidence,
           s.requireExact ==> answer == expected, answer != "" && w.comparison.value.passed)
  {
  }

  /**
   A finished trial is sound, and it is labelled exactly when the reference passed, the metrics prove
   the execution, the answer is complete and, in strict mode, exact.
   */
  lemma TrialOutcome(i: Intervention, blockSize: int, s: Settings, w: Responses)
    requires RunTrial(i, blockSize, s, w).Ok?
    ensures w.comparison.Ok?
    ensures var t := RunTrial(i, blockSize, s, w).value;
      var expected, answer := Text(Reference(s, w).output), Text(w.active.output);
      && t.intervention == i && Sound(t, blockSize)
      && t.donor == w.donor && t.active == w.active
      && (t.result.validReference <==> expected != "" && w.comparison.value.validReference)
      && (t.result.validExecution <==> Proven(w.active.metrics, i, blockSize))
      && (t.verdict.Some? <==>
        && expected != "" && w.comparison.value.validReference && Proven(w.active.metrics, i, blockSize)
        && w.active.stopped && (s.requireExact ==> answer == expected))
      && (t.verdict.Some? ==> (t.verdict.value.decision == Reuse <==> answer != "" && w.comparison.value.passed))
      && (t.exactMatch.Some? <==> s.required.Some?)
      && (t.exactMatch == Some(false) <==> s.required.Some? && Reference(s, w).output != s.required)
  {
    EvidenceIsolatesOneBlock(i, blockSize, w.active.metrics);
    ScoreOutcome(Validate(i, blockSize, w.active.metrics), Reference(s, w).output, w.active.output,
                 w.comparison.value.validReference, w.comparison.value.passed, s.requireExact);
  }

  // ---------- a batch of trials ----------

  datatype Discovery = Discovery(
    trace: string, transition: string, blockSize: int, candidates: seq<int>, testable: seq<int>, excluded: Option<int>)

  datatype Batch = Batch(discovery: Discovery, trials: seq<Trial>, targets: seq<int>, stable: bool)

  predicate NonNegative(s: seq<int>) {
    forall x :: x in s ==> x >= 0
  }

  function Excluding(s: seq<int>, excluded: Option<int>): (r: seq<int>)
    ensures forall x :: x in r <==> x in s && Some(x) != excluded
  {
    if |s| == 0 then []
    else
      var front, last := s[..|s| - 1], s[|s| - 1];
      assert s == front + [last];
      Excluding(front, excluded) + if Some(last) != excluded then [last] else []
  }

  predicate ValidDiscovery(d: Discovery) {
    && NonNegative(d.candidates) && Increasing(d.candidates) && NonNegative(d.testable) && Increasing(d.testable)
    && d.trace != "" && d.transition != "" && d.blockSize >= 1
    && (d.excluded.Some? ==> d.excluded.value in d.candidates) && d.testable == Excluding(d.candidates, d.excluded)
  }

  predicate ValidSelection(d: Discovery, selected: seq<int>) {
    NonNegative(selected) && Increasing(selected) && forall x :: x in selected ==> x in d.testable
  }

  function InterventionFor(d: Discovery, block: int): Intervention {
    Intervention(d.trace, d.transition, d.candidates, block)
  }

  predicate BlockIndices(s: seq<int>) {
    NonNegative(s) && Increasing(s)
  }

  /** The checks on a discovery: both index lists, the identity, the block size and the excluded block. */
  function CheckDiscovery(d: Discovery): (fault: Option<string>)
    ensures fault.None? <==> ValidDiscovery(d)
  {
    if !BlockIndices(d.candidates) || !BlockIndices(d.testable) then
      Some("block indices must be non-negative, sorted and unique")
    else if d.trace == "" || d.transition == "" then Some("trace and transition IDs must not be empty")
    else if d.blockSize < 1 then Some("discovery block size must be positive")
    else if d.excluded.Some? && d.excluded.value !in d.candidates then
      Some("excluded output block must belong to the candidates")
    else if d.testable != Excluding(d.candidates, d.excluded) then
      Some("testable blocks do not match the discovery candidates")
    else None
  }

  predicate CheckSelection(d: Discovery, blocks: seq<int>)
    ensures CheckSelection(d, blocks) <==> ValidSelection(d, blocks)
  {
    ElementsSubset(blocks, d.testable);
    BlockIndices(blocks) && Elements(blocks) <= Elements(d.testable)
  }

  /** One intervention per selected block, once the discovery and the selection pass every check. */
  function BuildInterventions(d: Discovery, selected: Option<seq<int>>): (r: Result<seq<Intervention>>)
    ensures r.Ok? <==> ValidDiscovery(d) && ValidSelection(d, Selected(d, selected))
    ensures r.Ok? ==> |r.value| == |Selected(d, selected)| && forall k :: 0 <= k < |r.value| ==>
      r.value[k] == Intervention(d.trace, d.transition, d.candidates, Selected(d, selected)[k])
  {
    var fault, blocks := CheckDiscovery(d), Selected(d, selected);
    if fault.Some? then Err(fault.value)
    else if !CheckSelection(d, blocks) then Err("selected blocks must be a sorted subset of testable blocks")
    else Ok(seq(|blocks|, k requires 0 <= k < |blocks| => InterventionFor(d, blocks[k])))
  }

  /** What every batch satisfies: one sound trial per selected block, in order. */
  predicate Recorded(b: Batch) {
    && ValidDiscovery(b.discovery) && ValidSelection(b.discovery, b.targets) && |b.trials| == |b.targets|
    && forall k :: 0 <= k < |b.trials| ==>
         && b.trials[k].intervention ==
              Intervention(b.discovery.trace, b.discovery.transition, b.discovery.candidates, b.targets[k])
         && Sound(b.trials[k], b.discovery.blockSize)
  }

  function TrialFor(d: Discovery, block: int, s: Settings, respond: Intervention -> Responses): Result<Trial> {
    RunTrial(InterventionFor(d, block), d.blockSize, s, respond(InterventionFor(d, block)))
  }

  predicate RaisesFor(d: Discovery, block: int, s: Settings, respond: Intervention -> Responses) {
    Raises(InterventionFor(d, block), d.blockSize, s, respond(InterventionFor(d, block)))
  }

  function Selected(d: Discovery, selected: Option<seq<int>>): seq<int> {
    if selected.Some? then selected.value else d.testable
  }

  /**
   All trials in order, then one more full recompute of a shared reference. The batch exists exactly
   when the plan is valid, no trial fails and the final recompute is a fresh one.
   */
  method RunTrials(d: Discovery, selected: Option<seq<int>>, s: Settings, respond: Intervention -> Responses,
                   final: Observation)
    returns (r: Result<Batch>)
    ensures r.Ok? <==>
      && ValidDiscovery(d) && ValidSelection(d, Selected(d, selected)) && (s.shared.Some? ==> final.recomputed)
      && forall b :: b in Selected(d, selected) ==> !RaisesFor(d, b, s, respond)
    ensures r.Ok? ==> r.value.discovery == d && r.value.targets == Selected(d, selected) && Recorded(r.value)
    ensures r.Ok? ==> forall k :: 0 <= k < |r.value.trials| ==>
      Ok(r.value.trials[k]) == TrialFor(d, r.value.targets[k], s, respond)
    ensures r.Ok? ==> (r.value.stable <==> s.shared.Some? ==> final.stopped && final.output == s.shared.value.output)
  {
    var blocks := Selected(d, selected);
    var interventions := BuildInterventions(d, selected);
    if interventions.Err? {
      return Err(interventions.reason);
    }
    var trials: seq<Trial> := [];
    for n := 0 to |blocks|
      invariant |trials| == n
      invariant forall k :: 0 <= k < n ==>
        !RaisesFor(d, blocks[k], s, respond) && Ok(trials[k]) == TrialFor(d, blocks[k], s, respond)
    {
      TrialRaisesIff(InterventionFor(d, blocks[n]), d.blockSize, s, respond(InterventionFor(d, blocks[n])));
      var i := interventions.value[n];
      var trial := RunTrial(i, d.blockSize, s, respond(i));
      if trial.Err? {
        return Err(trial.reason);
      }
      trials := trials + [trial.value];
    }
    if s.shared.Some? && !final.recomputed {
      return Err("stability reference was not a fresh full recompute");
    }
    var stable := s.shared.Some? ==> final.stopped && final.output == s.shared.value.output;
    forall k | 0 <= k < |trials|
      ensures trials[k].intervention == InterventionFor(d, blocks[k]) && Sound(trials[k], d.blockSize)
    {
      TrialOutcome(InterventionFor(d, blocks[k]), d.blockSize, s, respond(InterventionFor(d, blocks[k])));
    }
    return Ok(Batch(d, trials, blocks, stable));
  }
}
