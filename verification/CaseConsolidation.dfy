/** Merging the training rows and counts of all cases of a plan. */
module CaseConsolidation {
  import opened Common
  import opened TrainingRows
  import CounterfactualTrials

  datatype Status = Finished | SkippedReference | Unknown

  /** A case as it is read back: the summary counts, its identity, and the rows of its dataset file. */
  datatype Case = Case(status: Status, result: CaseResult, collection: string, task: string)

  /** A row is identified by trace, transition and block. */
  datatype RowKey = RowKey(trace: string, transition: string, block: nat)

  datatype MergedRow = MergedRow(row: Row, index: nat, collection: string, conversation: string, task: string)

  function KeyOf(row: Row): RowKey {
    RowKey(row.trace, row.transition, row.features.blockIndex)
  }

  function Keys(rows: seq<Row>): (s: seq<RowKey>)
    ensures |s| == |rows| && forall k :: 0 <= k < |s| ==> s[k] == KeyOf(rows[k])
  {
    seq(|rows|, k requires 0 <= k < |rows| => KeyOf(rows[k]))
  }

  /** The separator `<::>` between the conversation and the turn of a task ID. */
  predicate SeparatorAt(task: string, at: nat) {
    at + 4 <= |task| && task[at] == '<' && task[at + 1] == ':' && task[at + 2] == ':' && task[at + 3] == '>'
  }

  /** The first separator among the first `n` positions, or `n`. */
  function FirstSeparator(task: string, n: nat): (at: nat)
    ensures at <= n
  {
    if n == 0 then 0
    else
      var at := FirstSeparator(task, n - 1);
      if at < n - 1 || SeparatorAt(task, n - 1) then at else n
  }

  lemma {:induction false} FirstSeparatorIsFirst(task: string, n: nat, k: nat)
    ensures FirstSeparator(task, n) < n ==> SeparatorAt(task, FirstSeparator(task, n))
    ensures k < FirstSeparator(task, n) ==> !SeparatorAt(task, k)
  {
    if n == 0 {
    } else {
      FirstSeparatorIsFirst(task, n - 1, k);
    }
  }

  predicate HasConversation(task: string) {
    FirstSeparator(task, |task|) < |task|
  }

  /** The conversation is everything before the first separator. */
  function ConversationOf(task: string): string {
    task[..FirstSeparator(task, |task|)]
  }

  /** There is a conversation exactly when the separator occurs, and it is followed by the first one. */
  lemma {:induction false} ConversationSplits(task: string, k: nat)
    ensures HasConversation(task) <==> exists at: nat :: SeparatorAt(task, at)
    ensures HasConversation(task) ==> SeparatorAt(task, |ConversationOf(task)|) && ConversationOf(task) <= task
    ensures k < |ConversationOf(task)| ==> !SeparatorAt(task, k)
  {
    FirstSeparatorIsFirst(task, |task|, k);
    if exists at: nat :: SeparatorAt(task, at) {
      var at: nat :| SeparatorAt(task, at);
      FirstSeparatorIsFirst(task, |task|, at);
    }
  }

  // ---------- counts ----------

  function Add(a: Summary, b: Summary): Summary {
    Summary(a.trials + b.trials, a.rows + b.rows, a.invalid + b.invalid, a.abstained + b.abstained,
            a.drifted + b.drifted, a.repair + b.repair, a.reuse + b.reuse)
  }

  function Zero(): Summary {
    Summary(0, 0, 0, 0, 0, 0, 0)
  }

  /** No count is positive. */
  predicate Nothing(s: Summary) {
    s.trials + s.rows + s.invalid + s.abstained + s.drifted + s.repair + s.reuse == 0
  }

  function Total(cases: seq<Case>): Summary {
    if |cases| == 0 then Zero() else Add(Total(cases[..|cases| - 1]), cases[|cases| - 1].result.summary)
  }

  /** Every total is the sum of that one count over all cases: trials, rows and labels, ... */
  lemma {:induction false} TotalSums(cases: seq<Case>)
    ensures Total(cases).trials ==
      Sum(seq(|cases|, k requires 0 <= k < |cases| => cases[k].result.summary.trials))
    ensures Total(cases).rows ==
      Sum(seq(|cases|, k requires 0 <= k < |cases| => cases[k].result.summary.rows))
    ensures Total(cases).repair ==
      Sum(seq(|cases|, k requires 0 <= k < |cases| => cases[k].result.summary.repair))
    ensures Total(cases).reuse ==
      Sum(seq(|cases|, k requires 0 <= k < |cases| => cases[k].result.summary.reuse))
  {
    FieldSum(cases, (s: Summary) => s.trials,
             seq(|cases|, k requires 0 <= k < |cases| => cases[k].result.summary.trials));
    FieldSum(cases, (s: Summary) => s.rows,
             seq(|cases|, k requires 0 <= k < |cases| => cases[k].result.summary.rows));
    FieldSum(cases, (s: Summary) => s.repair,
             seq(|cases|, k requires 0 <= k < |cases| => cases[k].result.summary.repair));
    FieldSum(cases, (s: Summary) => s.reuse,
             seq(|cases|, k requires 0 <= k < |cases| => cases[k].result.summary.reuse));
  }

  /** ... and the trials without a row. */
  lemma {:induction false} UnlabelledSums(cases: seq<Case>)
    ensures Total(cases).invalid ==
      Sum(seq(|cases|, k requires 0 <= k < |cases| => cases[k].result.summary.invalid))
    ensures Total(cases).abstained ==
      Sum(seq(|cases|, k requires 0 <= k < |cases| => cases[k].result.summary.abstained))
    ensures Total(cases).drifted ==
      Sum(seq(|cases|, k requires 0 <= k < |cases| => cases[k].result.summary.drifted))
  {
    FieldSum(cases, (s: Summary) => s.invalid,
             seq(|cases|, k requires 0 <= k < |cases| => cases[k].result.summary.invalid));
    FieldSum(cases, (s: Summary) => s.abstained,
             seq(|cases|, k requires 0 <= k < |cases| => cases[k].result.summary.abstained));
    FieldSum(cases, (s: Summary) => s.drifted,
             seq(|cases|, k requires 0 <= k < |cases| => cases[k].result.summary.drifted));
  }

  lemma {:induction false} FieldSum(cases: seq<Case>, field: Summary -> nat, values: seq<nat>)
    requires field(Zero()) == 0 && forall a, b :: field(Add(a, b)) == field(a) + field(b)
    requires |values| == |cases| && forall k :: 0 <= k < |cases| ==> values[k] == field(cases[k].result.summary)
    ensures field(Total(cases)) == Sum(values)
  {
    if |cases| == 0 {
    } else {
      var n := |cases| - 1;
      FieldSum(cases[..n], field, values[..n]);
    }
  }

  lemma {:induction false} TotalBalances(cases: seq<Case>)
    requires forall k :: 0 <= k < |cases| ==> Balanced(cases[k].result.summary)
    ensures Balanced(Total(cases))
  {
    if |cases| == 0 {
    } else {
      TotalBalances(cases[..|cases| - 1]);
    }
  }

  // ---------- cases ----------

  /** The rows a case contributes: none if its reference was skipped. */
  function RowsIn(c: Case): seq<Row> {
    if c.status == Finished then c.result.rows else []
  }

  predicate RowsMatch(r: CaseResult) {
    |r.rows| == r.summary.rows && RowsDeciding(r.rows, CounterfactualTrials.Repair) == r.summary.repair
    && RowsDeciding(r.rows, CounterfactualTrials.Reuse) == r.summary.reuse
  }

  predicate RowsBelong(r: CaseResult) {
    forall k :: 0 <= k < |r.rows| ==> r.rows[k].trace == r.trace && r.rows[k].transition == r.transition
  }

  /** The checks of one case before its rows are merged. */
  predicate Checked(c: Case) {
    && Balanced(c.result.summary) && c.collection != "" && HasConversation(c.task) && c.status != Unknown
    && (c.status == SkippedReference ==> Nothing(c.result.summary))
    && (c.status == Finished ==> RowsMatch(c.result))
  }

  /** What consolidation demands of a single case. */
  predicate CaseOk(c: Case) {
    Checked(c) && (c.status == Finished ==> RowsBelong(c.result))
  }

  /** A case contributes as many rows as it counts. */
  lemma CaseRowsCounted(c: Case)
    requires Checked(c)
    ensures |RowsIn(c)| == c.result.summary.rows && DecisionsMatch(c)
  {
  }

  function AllRows(cases: seq<Case>): seq<Row> {
    if |cases| == 0 then [] else AllRows(cases[..|cases| - 1]) + RowsIn(cases[|cases| - 1])
  }

  /** The one-based indices of the skipped cases. */
  function Skipped(cases: seq<Case>): seq<nat> {
    if |cases| == 0 then []
    else Skipped(cases[..|cases| - 1]) + if cases[|cases| - 1].status == SkippedReference then [|cases|] else []
  }

  lemma {:induction false} SkippedAreListed(cases: seq<Case>, i: nat)
    ensures i in Skipped(cases) <==> 1 <= i <= |cases| && cases[i - 1].status == SkippedReference
  {
    if |cases| == 0 {
    } else {
      SkippedAreListed(cases[..|cases| - 1], i);
    }
  }

  /** Every counted row is merged: skipped cases count nothing. */
  lemma {:induction false} RowsAreCounted(cases: seq<Case>)
    requires forall k :: 0 <= k < |cases| ==> |RowsIn(cases[k])| == cases[k].result.summary.rows
    ensures |AllRows(cases)| == Total(cases).rows
  {
    if |cases| == 0 {
    } else {
      RowsAreCounted(cases[..|cases| - 1]);
    }
  }

  /** The total of either decision counts the merged rows of that decision. */
  lemma {:induction false} DecisionsAreCounted(cases: seq<Case>, d: CounterfactualTrials.Decision)
    requires forall k :: 0 <= k < |cases| ==> DecisionsMatch(cases[k])
    ensures CountFor(Total(cases), d) == RowsDeciding(AllRows(cases), d)
  {
    if |cases| == 0 {
    } else {
      DecisionsAreCounted(cases[..|cases| - 1], d);
      LastDecisions(cases, d);
    }
  }

  lemma LastDecisions(cases: seq<Case>, d: CounterfactualTrials.Decision)
    requires |cases| > 0 && DecisionsMatch(cases[|cases| - 1])
    ensures RowsDeciding(AllRows(cases), d) ==
      RowsDeciding(AllRows(cases[..|cases| - 1]), d) + CountFor(cases[|cases| - 1].result.summary, d)
  {
    DecidingConcat(AllRows(cases[..|cases| - 1]), RowsIn(cases[|cases| - 1]), d);
  }

  /** The count of one decision. */
  function CountFor(s: Summary, d: CounterfactualTrials.Decision): nat {
    if d == CounterfactualTrials.Repair then s.repair else s.reuse
  }

  predicate DecisionsMatch(c: Case) {
    && RowsDeciding(RowsIn(c), CounterfactualTrials.Repair) == c.result.summary.repair
    && RowsDeciding(RowsIn(c), CounterfactualTrials.Reuse) == c.result.summary.reuse
  }

  lemma {:induction false} DecidingConcat(a: seq<Row>, b: seq<Row>, d: CounterfactualTrials.Decision)
    ensures RowsDeciding(a + b, d) == RowsDeciding(a, d) + RowsDeciding(b, d)
    decreases |b|
  {
    if |b| == 0 {
      assert a + b == a;
    } else {
      assert (a + b)[..|a + b| - 1] == a + b[..|b| - 1];
      DecidingConcat(a, b[..|b| - 1], d);
    }
  }

  /** The rows of one case with their audit columns. */
  function Audited(c: Case, index: nat): (m: seq<MergedRow>)
    ensures |m| == |RowsIn(c)|
    ensures forall k :: 0 <= k < |m| ==>
      m[k] == MergedRow(RowsIn(c)[k], index, c.collection, ConversationOf(c.task), c.task)
  {
    seq(|RowsIn(c)|, k requires 0 <= k < |RowsIn(c)| =>
      MergedRow(RowsIn(c)[k], index, c.collection, ConversationOf(c.task), c.task))
  }

  /** The merged table: every row of every finished case, in order. */
  function AllMerged(cases: seq<Case>): (m: seq<MergedRow>)
    ensures |m| == |AllRows(cases)| && forall k :: 0 <= k < |m| ==> m[k].row == AllRows(cases)[k]
  {
    if |cases| == 0 then [] else AllMerged(cases[..|cases| - 1]) + Audited(cases[|cases| - 1], |cases|)
  }

  /** Every merged row is a row of a finished case, with the index, collection and task of that case. */
  lemma {:induction false} MergedRowHasCase(cases: seq<Case>, k: nat) returns (i: nat)
    requires k < |AllMerged(cases)|
    ensures i < |cases| && cases[i].status == Finished
    ensures var m := AllMerged(cases)[k];
      && m.row in cases[i].result.rows && m.index == i + 1 && m.collection == cases[i].collection
      && m.conversation == ConversationOf(cases[i].task) && m.task == cases[i].task
  {
    var n := |cases| - 1;
    var before := AllMerged(cases[..n]);
    if k < |before| {
      i := MergedRowHasCase(cases[..n], k);
    } else {
      i := n;
      assert AllMerged(cases)[k] == Audited(cases[n], n + 1)[k - |before|];
    }
  }

  /** No two rows label the same block of the same transition. */
  ghost predicate LabelledOnce(rows: seq<Row>) {
    forall i, j :: 0 <= i < j < |rows| ==>
      !(rows[i].trace == rows[j].trace && rows[i].transition == rows[j].transition &&
        rows[i].features.blockIndex == rows[j].features.blockIndex)
  }

  lemma KeysIdentifyRows(rows: seq<Row>)
    ensures NoDuplicates(Keys(rows)) <==> LabelledOnce(rows)
  {
    assert forall k :: 0 <= k < |rows| ==> Keys(rows)[k] == KeyOf(rows[k]);
  }

  // ---------- merging ----------

  /** One row after another, refusing a foreign row or a block that is already labelled. */
  method MergeRows(c: Case, index: nat, ghost before: seq<Row>, seen: set<RowKey>)
    returns (r: Result<(seq<MergedRow>, set<RowKey>)>)
    requires c.status == Finished && seen == Elements(Keys(before)) && NoDuplicates(Keys(before))
    ensures r.Ok? <==> RowsBelong(c.result) && NoDuplicates(Keys(before + c.result.rows))
    ensures r.Ok? ==> r.value.0 == Audited(c, index) && r.value.1 == Elements(Keys(before + c.result.rows))
  {
    var rows, merged, keys := c.result.rows, [], seen;
    assert before + rows[..0] == before;
    for n := 0 to |rows|
      invariant forall k :: 0 <= k < n ==> rows[k].trace == c.result.trace && rows[k].transition == c.result.transition
      invariant merged == Audited(c, index)[..n]
      invariant keys == Elements(Keys(before + rows[..n])) && NoDuplicates(Keys(before + rows[..n]))
    {
      if rows[n].trace != c.result.trace || rows[n].transition != c.result.transition {
        return Err("foreign row");
      }
      KeysStep(before, rows, n);
      if KeyOf(rows[n]) in keys {
        return Err("duplicate block label");
      }
      merged := merged + [MergedRow(rows[n], index, c.collection, ConversationOf(c.task), c.task)];
      keys := keys + {KeyOf(rows[n])};
    }
    assert rows[..|rows|] == rows;
    return Ok((merged, keys));
  }

  lemma KeysExtend(rows: seq<Row>, row: Row)
    ensures Keys(rows + [row]) == Keys(rows) + [KeyOf(row)]
    ensures Elements(Keys(rows + [row])) == Elements(Keys(rows)) + {KeyOf(row)}
    ensures NoDuplicates(Keys(rows + [row])) <==> NoDuplicates(Keys(rows)) && KeyOf(row) !in Keys(rows)
  {
    var before, all := Keys(rows), Keys(rows + [row]);
    assert all == before + [KeyOf(row)];
    if KeyOf(row) in before {
      var i :| 0 <= i < |before| && before[i] == KeyOf(row);
      assert all[i] == all[|rows|];
    }
    assert forall i, j :: 0 <= i < j < |before| ==> (all[i] != all[j] <==> before[i] != before[j]);
  }

  /** One more row of a case: its key is new, or the whole list has a duplicate. */
  lemma KeysStep(before: seq<Row>, rows: seq<Row>, n: nat)
    requires n < |rows|
    ensures Elements(Keys(before + rows[..n + 1])) == Elements(Keys(before + rows[..n])) + {KeyOf(rows[n])}
    ensures NoDuplicates(Keys(before + rows[..n])) && KeyOf(rows[n]) !in Elements(Keys(before + rows[..n])) ==>
      NoDuplicates(Keys(before + rows[..n + 1]))
    ensures KeyOf(rows[n]) in Elements(Keys(before + rows[..n])) ==> !NoDuplicates(Keys(before + rows))
  {
    assert before + rows[..n + 1] == before + rows[..n] + [rows[n]];
    KeysExtend(before + rows[..n], rows[n]);
    var early := Keys(before + rows[..n]);
    if KeyOf(rows[n]) in early {
      var i :| 0 <= i < |early| && early[i] == KeyOf(rows[n]);
      assert (before + rows)[i] == (before + rows[..n])[i];
      assert Keys(before + rows)[i] == Keys(before + rows)[|before| + n];
    }
  }

  /** A duplicate among the first cases stays one. */
  lemma {:induction false} DuplicateStays(cases: seq<Case>, n: nat, done: seq<Case>)
    requires n < |cases| && done == cases[..n] && !NoDuplicates(Keys(AllRows(done + [cases[n]])))
    ensures !NoDuplicates(Keys(AllRows(cases)))
  {
    assert cases[..n + 1] == done + [cases[n]];
    EarlyRowsRemain(cases, n + 1);
    var few, all := Keys(AllRows(cases[..n + 1])), Keys(AllRows(cases));
    var i, j :| 0 <= i < j < |few| && few[i] == few[j];
    assert all[i] == all[j];
  }

  lemma {:induction false} EarlyRowsRemain(cases: seq<Case>, n: nat)
    requires n <= |cases|
    ensures AllRows(cases[..n]) <= AllRows(cases)
    decreases |cases|
  {
    if n == |cases| {
      assert cases[..n] == cases;
    } else {
      var front := cases[..|cases| - 1];
      assert front[..n] == cases[..n];
      EarlyRowsRemain(front, n);
    }
  }

  datatype Report = Report(merged: seq<MergedRow>, totals: Summary, skipped: seq<nat>)

  /** The accumulators after some cases. */
  ghost predicate Accumulated(report: Report, seen: set<RowKey>, cases: seq<Case>) {
    && report.merged == AllMerged(cases) && report.totals == Total(cases) && report.skipped == Skipped(cases)
    && seen == Elements(Keys(AllRows(cases))) && NoDuplicates(Keys(AllRows(cases)))
  }

  /** The checks of one case, in the order they are made. */
  method CheckCase(c: Case) returns (fault: Option<string>)
    ensures fault.None? <==> Checked(c)
  {
    var s, rows := c.result.summary, c.result.rows;
    if s.rows + s.invalid + s.abstained != s.trials || s.rows != s.repair + s.reuse {
      return Some("MTRAG case trial counts are inconsistent");
    }
    if c.collection == "" {
      return Some("MTRAG case has no collection");
    }
    if !HasConversation(c.task) {
      return Some("MTRAG case has no valid current task ID");
    }
    if c.status == SkippedReference {
      return if s == Zero() then None else Some("skipped MTRAG case contains trial results");
    }
    if c.status != Finished {
      return Some("MTRAG case has an unknown status");
    }
    if |rows| != s.rows || RowsDeciding(rows, CounterfactualTrials.Repair) != s.repair ||
       RowsDeciding(rows, CounterfactualTrials.Reuse) != s.reuse {
      return Some("MTRAG case dataset rows do not match its summary");
    }
    return None;
  }

  /** One case after another; a skipped one adds its zero counts and no rows. */
  method AddCase(report: Report, seen: set<RowKey>, ghost before: seq<Case>, c: Case, index: nat)
    returns (r: Result<(Report, set<RowKey>)>)
    requires Accumulated(report, seen, before) && index == |before| + 1
    ensures r.Ok? <==> CaseOk(c) && NoDuplicates(Keys(AllRows(before + [c])))
    ensures r.Ok? ==> Accumulated(r.value.0, r.value.1, before + [c])
  {
    assert (before + [c])[..|before|] == before;
    var fault := CheckCase(c);
    if fault.Some? {
      return Err(fault.value);
    }
    var totals := Add(report.totals, c.result.summary);
    if c.status == SkippedReference {
      assert Audited(c, index) == [];
      return Ok((Report(report.merged, totals, report.skipped + [index]), seen));
    }
    var next := MergeRows(c, index, AllRows(before), seen);
    if next.Err? {
      return Err(next.reason);
    }
    return Ok((Report(report.merged + next.value.0, totals, report.skipped), next.value.1));
  }

  ghost predicate AllOk(cases: seq<Case>) {
    forall k :: 0 <= k < |cases| ==> CaseOk(cases[k])
  }

  /** The loop over all cases of the plan. */
  method AddCases(cases: seq<Case>) returns (r: Result<Report>)
    ensures r.Ok? ==> AllOk(cases) && Accumulated(r.value, Elements(Keys(AllRows(cases))), cases)
    ensures r.Err? ==> !(AllOk(cases) && NoDuplicates(Keys(AllRows(cases))))
  {
    var report, seen: set<RowKey> := Report([], Zero(), []), {};
    ghost var done: seq<Case> := [];
    for n := 0 to |cases|
      invariant done == cases[..n] && AllOk(done) && Accumulated(report, seen, done)
    {
      var next := AddCase(report, seen, done, cases[n], n + 1);
      if next.Err? {
        if CaseOk(cases[n]) {
          DuplicateStays(cases, n, done);
        }
        return Err(next.reason);
      }
      report, seen, done := next.value.0, next.value.1, done + [cases[n]];
    }
    assert done == cases;
    return Ok(report);
  }

  /**
   Consolidation succeeds exactly when every case passes its checks and no block is labelled twice;
   the merged rows are then those of the finished cases in order, and the totals balance and count them.
   */
  method Consolidate(cases: seq<Case>) returns (r: Result<Report>)
    ensures r.Ok? <==> AllOk(cases) && LabelledOnce(AllRows(cases))
    ensures r.Ok? ==>
      r.value.merged == AllMerged(cases) && r.value.totals == Total(cases) && r.value.skipped == Skipped(cases)
    ensures r.Ok? ==> Balanced(r.value.totals) && |r.value.merged| == r.value.totals.rows
    ensures r.Ok? ==>
      && r.value.totals.repair == |RowsLabelled(r.value.merged, CounterfactualTrials.Repair)|
      && r.value.totals.reuse == |RowsLabelled(r.value.merged, CounterfactualTrials.Reuse)|
  {
    r := AddCases(cases);
    KeysIdentifyRows(AllRows(cases));
    if r.Ok? {
      TotalsCountRows(cases);
    }
  }

  /** The merged rows that carry a decision. */
  ghost function RowsLabelled(merged: seq<MergedRow>, d: CounterfactualTrials.Decision): set<nat> {
    set k: nat | k < |merged| && merged[k].row.verdict.decision == d
  }

  lemma TotalsCountRows(cases: seq<Case>)
    requires AllOk(cases)
    ensures Balanced(Total(cases)) && |AllMerged(cases)| == Total(cases).rows
    ensures Total(cases).repair == |RowsLabelled(AllMerged(cases), CounterfactualTrials.Repair)|
    ensures Total(cases).reuse == |RowsLabelled(AllMerged(cases), CounterfactualTrials.Reuse)|
  {
    forall k | 0 <= k < |cases|
      ensures |RowsIn(cases[k])| == cases[k].result.summary.rows && DecisionsMatch(cases[k])
    {
      assert CaseOk(cases[k]);
      CaseRowsCounted(cases[k]);
    }
    TotalBalances(cases);
    RowsAreCounted(cases);
    DecisionsAreCounted(cases, CounterfactualTrials.Repair);
    DecisionsAreCounted(cases, CounterfactualTrials.Reuse);
    MergedDecisions(cases, CounterfactualTrials.Repair);
    MergedDecisions(cases, CounterfactualTrials.Reuse);
  }

  lemma MergedDecisions(cases: seq<Case>, d: CounterfactualTrials.Decision)
    ensures RowsDeciding(AllRows(cases), d) == |RowsLabelled(AllMerged(cases), d)|
  {
    var rows := AllRows(cases);
    RowsDecidingIsPositions(rows, d);
    assert RowsLabelled(AllMerged(cases), d) == set k: nat | k < |rows| && rows[k].verdict.decision == d;
  }

  // ---------- completed cases consolidate ----------

  /** The trace and transition of a finished case. */
  predicate SameCase(a: Case, b: Case) {
    a.result.trace == b.result.trace && a.result.transition == b.result.transition
  }

  predicate FromWorkflow(c: Case) {
    c.status == Finished && Completed(c.result) && c.collection != "" && HasConversation(c.task)
  }

  predicate FromSkip(c: Case) {
    c.status == SkippedReference && c.result.summary == Zero() && c.collection != "" && HasConversation(c.task)
  }

  lemma CompletedIsOk(c: Case)
    requires FromWorkflow(c) || FromSkip(c)
    ensures CaseOk(c) && Separated(c)
  {
    if c.status == Finished {
      assert RowsMatch(c.result) && RowsBelong(c.result);
    }
  }

  /** The rows of a finished case are of distinct blocks, and of that case. */
  predicate Separated(c: Case) {
    c.status == Finished ==> OneCase(c.result.rows, c.result.trace, c.result.transition)
  }

  /** Rows come from a finished case of their own trace and transition. */
  lemma {:induction false} RowHasCase(cases: seq<Case>, k: nat) returns (i: nat)
    requires forall n :: 0 <= n < |cases| ==> Separated(cases[n])
    requires k < |AllRows(cases)|
    ensures i < |cases| && cases[i].status == Finished
    ensures AllRows(cases)[k].trace == cases[i].result.trace &&
      AllRows(cases)[k].transition == cases[i].result.transition
  {
    var front := cases[..|cases| - 1];
    if k < |AllRows(front)| {
      i := RowHasCase(front, k);
    } else {
      i := |cases| - 1;
      assert Separated(cases[i]);
      assert AllRows(cases)[k] == cases[i].result.rows[k - |AllRows(front)|];
    }
  }

  lemma {:induction false} SeparatedKeysDiffer(cases: seq<Case>)
    requires forall n :: 0 <= n < |cases| ==> Separated(cases[n])
    requires forall i, j :: 0 <= i < j < |cases| && cases[i].status == cases[j].status == Finished ==>
      !SameCase(cases[i], cases[j])
    ensures NoDuplicates(Keys(AllRows(cases)))
  {
    if |cases| == 0 {
    } else {
      var front, last := cases[..|cases| - 1], cases[|cases| - 1];
      SeparatedKeysDiffer(front);
      var few, all := AllRows(front), AllRows(cases);
      forall i, j | 0 <= i < j < |all| ensures Keys(all)[i] != Keys(all)[j] {
        if j < |few| {
          assert Keys(few)[i] != Keys(few)[j];
        } else {
          assert Separated(last) && all[j] == last.result.rows[j - |few|];
          if i < |few| {
            var n := RowHasCase(front, i);
            assert front[n] == cases[n] && all[i] == few[i];
          } else {
            assert all[i] == last.result.rows[i - |few|];
          }
        }
      }
    }
  }

  /**
   Whatever cases the workflow completed or skipped, as long as no two finished ones share trace and
   transition, consolidation accepts them all.
   */
  lemma {:induction false} CompletedCasesConsolidate(cases: seq<Case>)
    requires forall n :: 0 <= n < |cases| ==> FromWorkflow(cases[n]) || FromSkip(cases[n])
    requires forall i, j :: 0 <= i < j < |cases| && cases[i].status == cases[j].status == Finished ==>
      !SameCase(cases[i], cases[j])
    ensures AllOk(cases) && LabelledOnce(AllRows(cases))
  {
    KeysIdentifyRows(AllRows(cases));
    forall k | 0 <= k < |cases| ensures CaseOk(cases[k]) && Separated(cases[k]) {
      CompletedIsOk(cases[k]);
    }
    SeparatedKeysDiffer(cases);
  }
}
