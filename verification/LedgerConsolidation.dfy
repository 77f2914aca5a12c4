/** Combining counterfactual runs: trimming interrupted ledgers, merging them and indexing their cases. */
module LedgerConsolidation {
  import opened Common
  import opened RequestLedger

  // ---------- trimming ----------

  /** The longest prefix with at most `n` discovery starts. */
  function TrimPoint(lines: Ledger, n: nat): (k: nat)
    ensures k <= |lines| && Count(lines[..k], Discovery) <= n
    ensures k < |lines| ==> Hit(lines[k], Discovery) && Count(lines[..k], Discovery) == n
  {
    if Count(lines, Discovery) <= n then
      assert lines[..|lines|] == lines;
      |lines|
    else
      var front := lines[..|lines| - 1];
      var k := TrimPoint(front, n);
      assert front[..k] == lines[..k];
      k
  }

  function Trimmed(lines: Ledger, n: nat): Ledger {
    lines[..TrimPoint(lines, n)]
  }

  /** The start lines of discoveries among the first `k` lines. */
  ghost function Discoveries(lines: Ledger, k: nat): set<nat> {
    set i: nat | i < k && i < |lines| && lines[i].Event? && lines[i].kind == Started && lines[i].discovery
  }

  /** The cut: a prefix with at most `n` discoveries that ends with the ledger or right before one too many. */
  lemma TrimMeaning(lines: Ledger, n: nat, k: nat)
    requires k == TrimPoint(lines, n)
    ensures Trimmed(lines, n) == lines[..k] && |Discoveries(lines, k)| <= n
    ensures k < |lines| ==>
      lines[k].Event? && lines[k].kind == Started && lines[k].discovery && |Discoveries(lines, k)| == n
  {
    CountIsPositions(lines[..k], Discovery);
    assert Discoveries(lines, k) == set i: nat | i < |lines[..k]| && Hit(lines[..k][i], Discovery);
  }

  /** The copy loop over an interrupted ledger. */
  method TrimInterrupted(lines: Ledger, completedCases: nat) returns (r: Result<Ledger>)
    ensures r.Ok? <==> Malformed !in lines && completedCases <= Count(lines, Discovery)
    ensures r.Ok? ==> r.value == Trimmed(lines, completedCases)
  {
    var discovered := 0;
    var output: Ledger := [];
    for i := 0 to |lines|
      invariant Malformed !in lines[..i]
      invariant discovered == Count(lines[..i], Discovery)
      invariant output == Trimmed(lines[..i], completedCases)
    {
      var line := lines[i];
      assert lines[..i + 1] == lines[..i] + [line];
      if line.Malformed? {
        return Err("ledger line is not valid JSON");
      }
      TrimNext(lines[..i], line, completedCases);
      if Hit(line, Discovery) {
        discovered := discovered + 1;
      }
      if discovered <= completedCases {
        output := output + [line];
      }
    }
    assert lines[..|lines|] == lines;
    if discovered < completedCases {
      return Err("interrupted ledger has fewer cases than its summaries");
    }
    return Ok(output);
  }

  lemma TrimNext(read: Ledger, line: Line, n: nat)
    ensures Count(read + [line], Discovery) == Count(read, Discovery) + if Hit(line, Discovery) then 1 else 0
    ensures Trimmed(read + [line], n) ==
      if Count(read + [line], Discovery) <= n then Trimmed(read, n) + [line] else Trimmed(read, n)
  {
    CountAppend(read, line, Discovery);
    var all := read + [line];
    assert all[..|read|] == read;
    if Count(all, Discovery) <= n {
      assert all[..|all|] == all && read[..|read|] == read;
    } else {
      var k := TrimPoint(read, n);
      assert all[..k] == read[..k];
    }
  }

  // ---------- when a trimmed ledger is complete ----------

  /** No request starts while another one is open. */
  ghost predicate Sequential(lines: Ledger) {
    forall k :: 0 <= k < |lines| && Hit(lines[k], AnyStart) ==> Settled(lines[..k])
  }

  /** Fully successful: paired, nothing open, nothing failed. */
  ghost predicate Successful(lines: Ledger) {
    Accepts(lines) && Settled(lines) && Count(lines, AnyFailed) == 0
  }

  /** Line by line: an accepted ledger without failures in which every started request has an end line. */
  lemma SuccessfulMeaning(lines: Ledger)
    ensures Successful(lines) <==>
      && (forall k :: 0 <= k < |lines| ==> WellFormed(lines[k]) && lines[k].kind != Failed) && Pairs(lines)
      && forall i :: 0 <= i < |lines| && IsStart(lines[i]) ==>
           exists k :: 0 <= k < |lines| && IsEnd(lines[k]) && lines[k].id == lines[i].id
  {
    AcceptsMeaning(lines);
    CountPositive(lines, AnyFailed);
    assert Count(lines, AnyFailed) == 0 <==> forall k :: 0 <= k < |lines| ==> !Hit(lines[k], AnyFailed) by {
      assert forall k :: 0 <= k < |lines| ==> lines[k] in lines;
    }
    if Accepts(lines) {
      SettledMeaning(lines);
    }
  }

  lemma SettledMeaning(lines: Ledger)
    requires Accepts(lines)
    ensures Settled(lines) <==> forall i :: 0 <= i < |lines| && IsStart(lines[i]) ==>
      exists k :: 0 <= k < |lines| && IsEnd(lines[k]) && lines[k].id == lines[i].id
  {
    if Settled(lines) {
      forall i | 0 <= i < |lines| && IsStart(lines[i])
        ensures exists k :: 0 <= k < |lines| && IsEnd(lines[k]) && lines[k].id == lines[i].id
      {
        assert Closed(lines, lines[i].id) && lines[i] in lines && Hit(lines[i], StartOf(lines[i].id));
        CountPositive(lines, StartOf(lines[i].id));
        CountPositive(lines, EndOf(lines[i].id));
        var line :| line in lines && Hit(line, EndOf(lines[i].id));
        var k :| 0 <= k < |lines| && lines[k] == line;
        assert IsEnd(lines[k]);
      }
    }
    if forall i :: 0 <= i < |lines| && IsStart(lines[i]) ==>
       exists k :: 0 <= k < |lines| && IsEnd(lines[k]) && lines[k].id == lines[i].id {
      forall id ensures Closed(lines, id) {
        StartedIsEnded(lines, id);
      }
    }
  }

  lemma StartedIsEnded(lines: Ledger, id: Id)
    requires Accepts(lines)
    requires forall i :: 0 <= i < |lines| && IsStart(lines[i]) ==>
      exists k :: 0 <= k < |lines| && IsEnd(lines[k]) && lines[k].id == lines[i].id
    ensures Closed(lines, id)
  {
    assert Paired(lines, id);
    if Count(lines, StartOf(id)) > 0 {
      CountPositive(lines, StartOf(id));
      CountPositive(lines, EndOf(id));
      var line :| line in lines && Hit(line, StartOf(id));
      var i :| 0 <= i < |lines| && lines[i] == line;
      assert IsStart(lines[i]);
      var k :| 0 <= k < |lines| && IsEnd(lines[k]) && lines[k].id == lines[i].id;
      assert lines[k] in lines && Hit(lines[k], EndOf(id));
    }
  }

  /** A settled prefix of a successful ledger is successful. */
  lemma PrefixIsSuccessful(lines: Ledger, k: nat)
    requires Successful(lines) && k <= |lines| && Settled(lines[..k])
    ensures Successful(lines[..k])
  {
    CountPrefix(lines, k, Bad);
    CountPrefix(lines, k, AnyFailed);
    forall id ensures Paired(lines[..k], id) {
      assert Paired(lines, id) && Closed(lines[..k], id);
      CountPrefix(lines, k, StartOf(id));
    }
  }

  /** Trimming a sequential successful ledger keeps it successful with exactly the requested discoveries. */
  lemma TrimmingIsSafe(lines: Ledger, n: nat)
    requires Successful(lines) && Sequential(lines) && n <= Count(lines, Discovery)
    ensures Successful(Trimmed(lines, n)) && Count(Trimmed(lines, n), Discovery) == n
  {
    var k := TrimPoint(lines, n);
    if k < |lines| {
      assert Hit(lines[k], AnyStart);
    } else {
      assert lines[..k] == lines;
    }
    PrefixIsSuccessful(lines, k);
  }

  /** No request has lines on both sides of the cut. */
  ghost predicate NothingStraddles(lines: Ledger, k: nat)
    requires k <= |lines|
  {
    forall id :: !Mentions(lines[..k], id) || !Mentions(lines[k..], id)
  }

  predicate Mentions(lines: Ledger, id: Id) {
    Count(lines, StartOf(id)) + Count(lines, EndOf(id)) > 0
  }

  lemma MentionsMeaning(lines: Ledger, id: Id)
    ensures Mentions(lines, id) <==>
      exists line :: line in lines && line.Event? && line.id == id && line.kind in {Started, Completed, Failed}
  {
    CountPositive(lines, StartOf(id));
    CountPositive(lines, EndOf(id));
    if exists line :: line in lines && line.Event? && line.id == id && line.kind in {Started, Completed, Failed} {
      var line :| line in lines && line.Event? && line.id == id && line.kind in {Started, Completed, Failed};
      assert Hit(line, StartOf(id)) || Hit(line, EndOf(id));
    }
  }

  /** In general a cut of a successful ledger is successful exactly when no request straddles it. */
  lemma CutIsSuccessfulIff(lines: Ledger, k: nat)
    requires Successful(lines) && k <= |lines|
    ensures Successful(lines[..k]) <==> NothingStraddles(lines, k)
  {
    var front, back := lines[..k], lines[k..];
    forall id ensures Closed(front, id) <==> (!Mentions(front, id) || !Mentions(back, id)) {
      assert Paired(lines, id) && Closed(lines, id);
      CountPrefix(lines, k, StartOf(id));
      CountPrefix(lines, k, EndOf(id));
    }
    if NothingStraddles(lines, k) {
      forall id ensures Closed(front, id) {
        assert !Mentions(front, id) || !Mentions(back, id);
      }
      PrefixIsSuccessful(lines, k);
    }
    if Successful(front) {
      forall id ensures !Mentions(front, id) || !Mentions(back, id) {
        assert Closed(front, id);
      }
    }
  }

  /** Without sequential requests trimming can leave an open request behind. */
  lemma InterleavedTrimIsIncomplete()
    ensures var lines :=
      [Event("a", Started, true), Event("b", Started, true), Event("a", Completed, false),
       Event("b", Completed, false)];
      Successful(lines) && Trimmed(lines, 1) == lines[..1] && !Settled(lines[..1])
  {
    var a, b := Event("a", Started, true), Event("b", Started, true);
    var x, y := Event("a", Completed, false), Event("b", Completed, false);
    var lines := [a, b, x, y];
    forall p: Probe
      ensures Count([a], p) == Hits(a, p)
      ensures Count([a, b], p) == Hits(a, p) + Hits(b, p)
      ensures Count(lines, p) == Hits(a, p) + Hits(b, p) + Hits(x, p) + Hits(y, p)
    {
      CountAppend([], a, p);
      CountAppend([a], b, p);
      CountAppend([a, b], x, p);
      CountAppend([a, b, x], y, p);
      assert [] + [a] == [a] && [a] + [b] == [a, b] && [a, b] + [x] == [a, b, x] && [a, b, x] + [y] == lines;
    }
    forall id ensures Paired(lines, id) && Closed(lines, id) {
    }
    assert lines[..1] == [a];
    assert !Closed([a], "a");
    var k := TrimPoint(lines, 1);
    assert k < |lines| by { assert lines[..4] == lines; }
    assert lines[..0] == [] && lines[..2] == [a, b];
    assert k == 1;
  }

  function Hits(line: Line, p: Probe): nat {
    if Hit(line, p) then 1 else 0
  }

  // ---------- merging ----------

  /** One source run: whether it finished with a summary, its ledger and its completed cases. */
  datatype Run = Run(finished: bool, ledger: Ledger, completedCases: nat)

  function Copied(run: Run): Ledger {
    if run.finished then run.ledger else Trimmed(run.ledger, run.completedCases)
  }

  function Copies(runs: seq<Run>): seq<Ledger> {
    seq(|runs|, i requires 0 <= i < |runs| => Copied(runs[i]))
  }

  function Merged(parts: seq<Ledger>): Ledger {
    if |parts| == 0 then [] else Merged(parts[..|parts| - 1]) + parts[|parts| - 1]
  }

  /** The merged ledger holds the lines of every part, in the order of the parts. */
  lemma {:induction false} MergedAt(parts: seq<Ledger>, i: nat, j: nat)
    requires i < |parts| && j < |parts[i]|
    ensures |Merged(parts[..i])| + j < |Merged(parts)|
    ensures Merged(parts)[|Merged(parts[..i])| + j] == parts[i][j]
  {
    var n := |parts| - 1;
    if i < n {
      MergedAt(parts[..n], i, j);
      assert parts[..n][..i] == parts[..i];
    }
  }

  lemma {:induction false} MergedLength(parts: seq<Ledger>)
    ensures |Merged(parts)| == Sum(seq(|parts|, i requires 0 <= i < |parts| => |parts[i]|))
  {
    if |parts| > 0 {
      var n := |parts| - 1;
      var sizes: seq<nat> := seq(|parts|, i requires 0 <= i < |parts| => |parts[i]|);
      MergedLength(parts[..n]);
      assert sizes[..n] == seq(n, i requires 0 <= i < n => |parts[..n][i]|);
    }
  }

  ghost predicate Disjoint(a: Ledger, b: Ledger) {
    forall id :: !Mentions(a, id) || !Mentions(b, id)
  }

  /** Two successful ledgers concatenate to a successful one exactly when they share no request. */
  lemma ConcatIsSuccessfulIff(a: Ledger, b: Ledger)
    requires Successful(a) && Successful(b)
    ensures Successful(a + b) <==> Disjoint(a, b)
  {
    CountConcat(a, b, Bad);
    CountConcat(a, b, AnyFailed);
    forall id
      ensures Closed(a + b, id)
      ensures Paired(a + b, id) <==> (!Mentions(a, id) || !Mentions(b, id))
    {
      assert Paired(a, id) && Closed(a, id) && Paired(b, id) && Closed(b, id);
      CountConcat(a, b, StartOf(id));
      CountConcat(a, b, EndOf(id));
    }
    if Successful(a + b) {
      forall id ensures !Mentions(a, id) || !Mentions(b, id) {
        assert Paired(a + b, id);
      }
    }
    if Disjoint(a, b) {
      forall id ensures Paired(a + b, id) {
        assert !Mentions(a, id) || !Mentions(b, id);
      }
    }
  }

  /** What the merge needs of one run: no request straddles the cut of an interrupted one. */
  ghost predicate Usable(run: Run) {
    && Successful(run.ledger)
    && (!run.finished ==>
          && run.completedCases <= Count(run.ledger, Discovery)
          && NothingStraddles(run.ledger, TrimPoint(run.ledger, run.completedCases)))
  }

  /** A run that passes the checks is copied to a successful ledger exactly when it is usable. */
  lemma CopyIsSuccessfulIff(run: Run)
    requires Checked(run)
    ensures Successful(Copied(run)) <==> Usable(run)
  {
    if !run.finished {
      CutIsSuccessfulIff(run.ledger, TrimPoint(run.ledger, run.completedCases));
    }
  }

  /** Sequential runs are usable. */
  lemma SequentialIsUsable(run: Run)
    requires Checked(run) && Sequential(run.ledger)
    ensures Usable(run)
  {
    if !run.finished {
      TrimmingIsSafe(run.ledger, run.completedCases);
      CutIsSuccessfulIff(run.ledger, TrimPoint(run.ledger, run.completedCases));
    }
  }

  /** No two ledgers mention the same request. */
  ghost predicate PairwiseDisjoint(parts: seq<Ledger>) {
    forall i, j :: 0 <= i < j < |parts| ==> Disjoint(parts[i], parts[j])
  }

  lemma MentionsConcat(a: Ledger, b: Ledger, id: Id)
    ensures Mentions(a + b, id) <==> Mentions(a, id) || Mentions(b, id)
  {
    CountConcat(a, b, StartOf(id));
    CountConcat(a, b, EndOf(id));
  }

  /** Disjointness from a concatenation is disjointness from both parts. */
  lemma DisjointConcat(a: Ledger, b: Ledger, c: Ledger)
    ensures Disjoint(a + b, c) <==> Disjoint(a, c) && Disjoint(b, c)
  {
    forall id ensures Mentions(a + b, id) <==> Mentions(a, id) || Mentions(b, id) {
      MentionsConcat(a, b, id);
    }
    if Disjoint(a + b, c) {
      forall id ensures (!Mentions(a, id) || !Mentions(c, id)) && (!Mentions(b, id) || !Mentions(c, id)) {
        assert !Mentions(a + b, id) || !Mentions(c, id);
      }
    }
  }

  lemma {:induction false} DisjointFromMerged(parts: seq<Ledger>, c: Ledger)
    ensures Disjoint(Merged(parts), c) <==> forall i :: 0 <= i < |parts| ==> Disjoint(parts[i], c)
  {
    if |parts| == 0 {
      assert forall id :: !Mentions([], id);
    } else {
      var front, last := parts[..|parts| - 1], parts[|parts| - 1];
      DisjointFromMerged(front, c);
      DisjointConcat(Merged(front), last, c);
      assert forall i :: 0 <= i < |front| ==> front[i] == parts[i];
    }
  }

  /** Successful ledgers merge to a successful one exactly when no two of them share a request. */
  lemma {:induction false} MergeIsSuccessfulIff(parts: seq<Ledger>)
    requires forall i :: 0 <= i < |parts| ==> Successful(parts[i])
    ensures Successful(Merged(parts)) <==> PairwiseDisjoint(parts)
  {
    if |parts| == 0 {
      NoLines();
    } else {
      var front, last := parts[..|parts| - 1], parts[|parts| - 1];
      assert forall i :: 0 <= i < |front| ==> front[i] == parts[i];
      MergeIsSuccessfulIff(front);
      DisjointFromMerged(front, last);
      assert PairwiseDisjoint(parts) <==> PairwiseDisjoint(front) && Disjoint(Merged(front), last);
      if Successful(Merged(front)) {
        ConcatIsSuccessfulIff(Merged(front), last);
      } else {
        ConcatNeedsParts(Merged(front), last);
      }
    }
  }

  lemma NoLines()
    ensures Successful([])
  {
    forall id ensures Paired([], id) && Closed([], id) {
    }
  }

  lemma ConcatNeedsParts(a: Ledger, b: Ledger)
    requires Successful(b) && !Successful(a)
    ensures !Successful(a + b)
  {
    CountConcat(a, b, Bad);
    CountConcat(a, b, AnyFailed);
    if Successful(a + b) {
      forall id ensures Paired(a, id) && Closed(a, id) {
        assert Paired(a + b, id) && Closed(a + b, id) && Closed(b, id);
        CountConcat(a, b, StartOf(id));
        CountConcat(a, b, EndOf(id));
      }
      assert false;
    }
  }

  /** What the assembly checks of one run before and while copying it. */
  ghost predicate Checked(run: Run) {
    Successful(run.ledger) && (!run.finished ==> run.completedCases <= Count(run.ledger, Discovery))
  }

  method IsFullySuccessful(lines: Ledger) returns (ok: bool)
    ensures ok <==> Successful(lines)
  {
    var validation := ValidateLedger(lines);
    SuccessMeans(lines);
    ok := validation.Ok? && validation.value.IsComplete() && validation.value.failed == 0;
  }

  /** Validate one run's ledger and copy it whole, or trimmed if the run was interrupted. */
  method CopyCompletedLedger(run: Run) returns (r: Result<Ledger>)
    ensures r.Ok? <==> Checked(run)
    ensures r.Ok? ==> r.value == Copied(run)
  {
    var ok := IsFullySuccessful(run.ledger);
    if !ok {
      return Err("source request ledger is not fully successful");
    }
    if run.finished {
      return Ok(run.ledger);
    }
    NoMalformed(run.ledger);
    r := TrimInterrupted(run.ledger, run.completedCases);
  }

  lemma CopiesNext(runs: seq<Run>, i: nat)
    requires i < |runs|
    ensures Merged(Copies(runs[..i + 1])) == Merged(Copies(runs[..i])) + Copied(runs[i])
  {
    assert Copies(runs[..i + 1])[..i] == Copies(runs[..i]);
  }

  /** `passes` says which runs pass their checks. */
  ghost predicate Tells(passes: Run -> bool) {
    forall run {:trigger Checked(run)} :: passes(run) <==> Checked(run)
  }

  /** The assembly loop: check and copy one run after another. */
  method CopyRuns(runs: seq<Run>, ghost passes: Run -> bool) returns (r: Result<Ledger>)
    requires Tells(passes)
    ensures r.Ok? <==> forall i :: 0 <= i < |runs| ==> passes(runs[i])
    ensures r.Ok? ==> r.value == Merged(Copies(runs))
  {
    var output: Ledger := [];
    for i := 0 to |runs|
      invariant output == Merged(Copies(runs[..i]))
      invariant forall j :: 0 <= j < i ==> passes(runs[j])
    {
      CopiesNext(runs, i);
      var copy := CopyCompletedLedger(runs[i]);
      if copy.Err? {
        return Err(copy.reason);
      }
      output := output + copy.value;
    }
    assert runs[..|runs|] == runs;
    return Ok(output);
  }

  /** Copying every run, then validating the merged ledger. */
  method MergeLedgers(runs: seq<Run>) returns (r: Result<Ledger>)
    ensures r.Ok? <==> (forall i :: 0 <= i < |runs| ==> Checked(runs[i])) && Successful(Merged(Copies(runs)))
    ensures r.Ok? ==> r.value == Merged(Copies(runs))
  {
    ghost var passes := (run: Run) => Checked(run);
    r := CopyRuns(runs, passes);
    assert forall i :: 0 <= i < |runs| ==> (passes(runs[i]) <==> Checked(runs[i]));
    if r.Ok? {
      var ok := IsFullySuccessful(r.value);
      if !ok {
        r := Err("merged request ledger is not fully successful");
      }
    }
  }

  /** Usable runs pass the assembly's checks, and merge exactly when no two of them share a request. */
  lemma UsableRunsMerge(runs: seq<Run>)
    requires forall i :: 0 <= i < |runs| ==> Usable(runs[i])
    ensures forall i :: 0 <= i < |runs| ==> Checked(runs[i])
    ensures Successful(Merged(Copies(runs))) <==> PairwiseDisjoint(Copies(runs))
  {
    forall i | 0 <= i < |runs| ensures Successful(Copies(runs)[i]) {
      CopyIsSuccessfulIff(runs[i]);
    }
    MergeIsSuccessfulIff(Copies(runs));
  }

  lemma SuccessMeans(lines: Ledger)
    ensures Successful(lines) <==> Accepts(lines) && SummaryOf(lines).IsComplete() && SummaryOf(lines).failed == 0
  {
    if Accepts(lines) {
      forall id ensures Closed(lines, id) <==> id !in SummaryOf(lines).incomplete {
        assert Paired(lines, id);
        IdsAreCounted(lines, id);
      }
    }
  }

  lemma NoMalformed(lines: Ledger)
    requires Accepts(lines)
    ensures Malformed !in lines
  {
    CountPositive(lines, Bad);
    assert Hit(Malformed, Bad);
  }

  // ---------- indexing cases ----------

  /** The cases of one run by source index, and the plan size its summary declares, if any. */
  datatype RunCases = RunCases(indices: seq<int>, declared: Option<nat>)

  function Indices(runs: seq<RunCases>): seq<int> {
    if |runs| == 0 then [] else Indices(runs[..|runs| - 1]) + runs[|runs| - 1].indices
  }

  function Declared(runs: seq<RunCases>): set<nat> {
    set run | run in runs && run.declared.Some? :: run.declared.value
  }

  function CaseRange(n: nat): (r: set<int>)
    ensures forall i :: i in r <==> 1 <= i <= n
    ensures |r| == n
  {
    if n == 0 then {} else CaseRange(n - 1) + {n}
  }

  /** Every planned case belongs to exactly one run. */
  predicate CoversOnce(runs: seq<RunCases>, n: nat) {
    NoDuplicates(Indices(runs)) && Elements(Indices(runs)) == CaseRange(n)
  }

  /** The dictionary of one more run; fails on a case that is already indexed. */
  method IndexRun(indices: seq<int>, before: seq<int>, indexed: set<int>) returns (r: Result<set<int>>)
    requires indexed == Elements(before) && NoDuplicates(before)
    ensures r.Ok? <==> NoDuplicates(before + indices)
    ensures r.Ok? ==> r.value == Elements(before + indices)
  {
    var known := indexed;
    assert before + indices[..0] == before;
    for i := 0 to |indices|
      invariant known == Elements(before + indices[..i]) && NoDuplicates(before + indices[..i])
    {
      var all := before + indices[..i];
      assert before + indices[..i + 1] == all + [indices[i]];
      if indices[i] in known {
        var j :| 0 <= j < |all| && all[j] == indices[i];
        assert (before + indices)[j] == (before + indices)[|all|];
        return Err("duplicate source case");
      }
      known := known + {indices[i]};
    }
    assert indices[..|indices|] == indices;
    return Ok(known);
  }

  /**
   What is accepted: `n` cases covered once by non-empty runs, at most one declared plan size, which `n`
   does not exceed, and `n` is the expected count or else the declared one.
   */
  predicate Agreed(runs: seq<RunCases>, expected: Option<int>, n: nat) {
    && n >= 1 && CoversOnce(runs, n) && (forall i :: 0 <= i < |runs| ==> |runs[i].indices| > 0)
    && |Declared(runs)| <= 1 && (forall d :: d in Declared(runs) ==> n <= d)
    && (if expected.Some? then expected.value == n else Declared(runs) <= {n})
  }

  /** The loop over all runs: the indexed cases and the declared sizes. */
  method IndexRuns(runs: seq<RunCases>) returns (r: Result<(set<int>, set<nat>)>)
    ensures r.Ok? ==> NoDuplicates(Indices(runs)) && forall i :: 0 <= i < |runs| ==> |runs[i].indices| > 0
    ensures r.Err? ==> !NoDuplicates(Indices(runs)) || exists i :: 0 <= i < |runs| && |runs[i].indices| == 0
    ensures r.Ok? ==> r.value == (Elements(Indices(runs)), Declared(runs))
  {
    var indexed, counts: set<nat> := {}, {};
    for i := 0 to |runs|
      invariant indexed == Elements(Indices(runs[..i])) && NoDuplicates(Indices(runs[..i]))
      invariant counts == Declared(runs[..i])
      invariant forall j :: 0 <= j < i ==> |runs[j].indices| > 0
    {
      assert runs[..i + 1][..i] == runs[..i];
      if |runs[i].indices| == 0 {
        return Err("run contains no completed case summaries");
      }
      var next := IndexRun(runs[i].indices, Indices(runs[..i]), indexed);
      if next.Err? {
        PrefixHasDuplicates(runs, i + 1);
        return Err(next.reason);
      }
      indexed := next.value;
      counts := counts + if runs[i].declared.Some? then {runs[i].declared.value} else {};
    }
    assert runs[..|runs|] == runs;
    return Ok((indexed, counts));
  }

  method IndexCases(runs: seq<RunCases>, expected: Option<int>) returns (r: Result<nat>)
    ensures forall n: nat :: r == Ok(n) <==> Agreed(runs, expected, n)
    ensures r.Ok? ==> |Indices(runs)| == r.value
  {
    if |runs| == 0 {
      assert forall n: nat :: CoversOnce(runs, n) ==> CaseRange(n) == {} && n == 0;
      return Err("at least one run is required");
    }
    var indexed := IndexRuns(runs);
    if indexed.Err? {
      return Err(indexed.reason);
    }
    assert Indices(runs) == Indices(runs[..|runs| - 1]) + runs[|runs| - 1].indices;
    r := CheckCoverage(Indices(runs), indexed.value.0, indexed.value.1, expected);
  }

  lemma {:induction false} PrefixHasDuplicates(runs: seq<RunCases>, k: nat)
    requires k <= |runs| && !NoDuplicates(Indices(runs[..k]))
    ensures !NoDuplicates(Indices(runs))
    decreases |runs|
  {
    if k < |runs| {
      var front := runs[..|runs| - 1];
      assert front[..k] == runs[..k];
      PrefixHasDuplicates(front, k);
      var i, j :| 0 <= i < j < |Indices(front)| && Indices(front)[i] == Indices(front)[j];
      assert Indices(runs)[i] == Indices(runs)[j];
    } else {
      assert runs[..k] == runs;
    }
  }

  function MaxOf(s: seq<int>): (m: int)
    requires |s| > 0
    ensures m in s && forall x :: x in s ==> x <= m
  {
    var front, last := s[..|s| - 1], s[|s| - 1];
    assert s == front + [last];
    if |s| == 1 || last >= MaxOf(front) then last else MaxOf(front)
  }

  /** The checks after indexing: one plan size, an expected count within it, nothing missing or extra. */
  method CheckCoverage(all: seq<int>, indexed: set<int>, counts: set<nat>, expected: Option<int>)
    returns (r: Result<nat>)
    requires |all| > 0 && indexed == Elements(all) && NoDuplicates(all)
    ensures forall n: nat :: r == Ok(n) <==>
      && n >= 1 && indexed == CaseRange(n) && |counts| <= 1 && (forall d :: d in counts ==> n <= d)
      && (if expected.Some? then expected.value == n else counts <= {n})
    ensures r.Ok? ==> |all| == r.value
  {
    if |counts| > 1 {
      return Err("runs disagree on the source case count");
    }
    var source := MaxOf(all);
    if counts != {} {
      var d :| d in counts;
      assert counts == {d} by { assert |counts - {d}| == |counts| - 1; }
      source := d;
    }
    forall n: nat | n >= 1 && indexed == CaseRange(n) ensures MaxOf(all) == n {
      assert n in indexed && MaxOf(all) in indexed;
    }
    var count := if expected.Some? then expected.value else source;
    if count < 1 || count > source {
      return Err("expected case count exceeds the source plan");
    }
    DistinctCardinality(all);
    if indexed != CaseRange(count) {
      return Err("source cases are missing or unexpected");
    }
    return Ok(count);
  }
}
