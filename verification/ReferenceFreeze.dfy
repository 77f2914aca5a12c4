/**
 Freezing the full reference plan: every executable transition of a coverage artifact, one manifest
 per dataset split, and the batches of the sorted transitions.
 */
module ReferenceFreeze {
  import opened Batching
  import opened Common
  import opened ReferenceExpansion

  type Positive = n: nat | n >= 1 witness 1

  /** One coverage transition: its candidate blocks, those of them that can be tested, and its prompt length. */
  datatype Transition = Transition(task: Task, split: Split, candidates: nat, testable: nat, promptTokens: Positive)

  /** What is frozen: something to test, and not excluded. */
  predicate Frozen(t: Transition, excluded: set<string>) {
    t.candidates > 0 && t.testable > 0 && t.task.id !in excluded
  }

  function FrozenRows(rows: seq<Transition>, excluded: set<string>): seq<Transition> {
    if |rows| == 0 then []
    else
      FrozenRows(rows[..|rows| - 1], excluded) + if Frozen(rows[|rows| - 1], excluded) then [rows[|rows| - 1]] else []
  }

  /** The tasks of one split, in order. */
  function TasksIn(rows: seq<Transition>, split: Split): seq<Task> {
    if |rows| == 0 then []
    else TasksIn(rows[..|rows| - 1], split) + if rows[|rows| - 1].split == split then [rows[|rows| - 1].task] else []
  }

  function TestableBlocks(rows: seq<Transition>): nat {
    if |rows| == 0 then 0 else TestableBlocks(rows[..|rows| - 1]) + rows[|rows| - 1].testable
  }

  lemma {:induction false} FrozenMember(rows: seq<Transition>, excluded: set<string>, t: Transition)
    requires t in FrozenRows(rows, excluded)
    ensures t in rows && Frozen(t, excluded)
  {
    var front := rows[..|rows| - 1];
    assert rows == front + [rows[|rows| - 1]];
    if t in FrozenRows(front, excluded) {
      FrozenMember(front, excluded, t);
    }
  }

  /** Exactly the transitions with something to test that are not excluded, in order; `at` lists their positions. */
  lemma FrozenPositions(rows: seq<Transition>, excluded: set<string>) returns (at: seq<nat>)
    ensures Increasing(at) && forall i: nat :: i in at <==>
      i < |rows| && rows[i].candidates > 0 && rows[i].testable > 0 && rows[i].task.id !in excluded
    ensures |at| == |FrozenRows(rows, excluded)|
    ensures forall k :: 0 <= k < |at| ==> at[k] < |rows| && FrozenRows(rows, excluded)[k] == rows[at[k]]
  {
    at := FrozenSelected(rows, excluded, (t: Transition) => Frozen(t, excluded));
  }

  lemma {:induction false} FrozenSelected(rows: seq<Transition>, excluded: set<string>, p: Transition -> bool)
    returns (at: seq<nat>)
    requires forall t :: p(t) <==> Frozen(t, excluded)
    ensures Selects(at, rows, p) && |at| == |FrozenRows(rows, excluded)|
    ensures forall k :: 0 <= k < |at| ==> at[k] < |rows| && FrozenRows(rows, excluded)[k] == rows[at[k]]
  {
    if |rows| == 0 {
      at := [];
    } else {
      var n := |rows| - 1;
      var front := FrozenSelected(rows[..n], excluded, p);
      SelectsNext(front, rows, p);
      at := front + if p(rows[n]) then [n] else [];
    }
  }

  /** The tasks of a split are those of its transitions, in order. */
  lemma TaskPositions(rows: seq<Transition>, split: Split) returns (at: seq<nat>)
    ensures Increasing(at) && forall i: nat :: i in at <==> i < |rows| && rows[i].split == split
    ensures |at| == |TasksIn(rows, split)|
    ensures forall k :: 0 <= k < |at| ==> at[k] < |rows| && TasksIn(rows, split)[k] == rows[at[k]].task
  {
    at := TasksSelected(rows, split, (t: Transition) => t.split == split);
  }

  lemma {:induction false} TasksSelected(rows: seq<Transition>, split: Split, p: Transition -> bool)
    returns (at: seq<nat>)
    requires forall t :: p(t) <==> t.split == split
    ensures Selects(at, rows, p) && |at| == |TasksIn(rows, split)|
    ensures forall k :: 0 <= k < |at| ==> at[k] < |rows| && TasksIn(rows, split)[k] == rows[at[k]].task
  {
    if |rows| == 0 {
      at := [];
    } else {
      var n := |rows| - 1;
      var front := TasksSelected(rows[..n], split, p);
      SelectsNext(front, rows, p);
      at := front + if p(rows[n]) then [n] else [];
    }
  }

  function Testables(rows: seq<Transition>): (s: seq<nat>)
    ensures |s| == |rows| && forall k :: 0 <= k < |s| ==> s[k] == rows[k].testable
  {
    seq(|rows|, k requires 0 <= k < |rows| => rows[k].testable)
  }

  lemma {:induction false} TestableIsSum(rows: seq<Transition>)
    ensures TestableBlocks(rows) == Sum(Testables(rows))
  {
    if |rows| == 0 {
    } else {
      var n := |rows| - 1;
      TestableIsSum(rows[..n]);
      assert Testables(rows)[..n] == Testables(rows[..n]);
    }
  }

  // ---------- the first loop ----------

  /**
   What the three counters of the loop count: transitions with candidates, with testable blocks, and
   excluded ones.
   */
  datatype Stage = Raw | Executable | Excluded

  predicate Reaches(t: Transition, stage: Stage, excluded: set<string>) {
    match stage
    case Raw => t.candidates > 0
    case Executable => t.candidates > 0 && t.testable > 0
    case Excluded => t.candidates > 0 && t.testable > 0 && t.task.id in excluded
  }

  function CountIn(rows: seq<Transition>, split: Split, stage: Stage, excluded: set<string>): nat {
    if |rows| == 0 then 0
    else
      var last := rows[|rows| - 1];
      CountIn(rows[..|rows| - 1], split, stage, excluded)
      + if last.split == split && Reaches(last, stage, excluded) then 1 else 0
  }

  /** Transitions with candidates, whatever their split. */
  function RawTotal(rows: seq<Transition>): nat {
    if |rows| == 0 then 0 else RawTotal(rows[..|rows| - 1]) + if rows[|rows| - 1].candidates > 0 then 1 else 0
  }

  function MaxPrompt(rows: seq<Transition>): nat {
    if |rows| == 0 then 0 else Max(MaxPrompt(rows[..|rows| - 1]), rows[|rows| - 1].promptTokens)
  }

  function MaxTestable(rows: seq<Transition>): nat {
    if |rows| == 0 then 0 else Max(MaxTestable(rows[..|rows| - 1]), rows[|rows| - 1].testable)
  }

  lemma {:induction false} CountWhere(rows: seq<Transition>, split: Split, stage: Stage, excluded: set<string>,
                                      p: Transition -> bool)
    requires forall t :: p(t) <==> t.split == split && Reaches(t, stage, excluded)
    ensures CountIn(rows, split, stage, excluded) == |Where(rows, p)|
  {
    if |rows| == 0 {
    } else {
      CountWhere(rows[..|rows| - 1], split, stage, excluded, p);
      WhereLast(rows, p);
    }
  }

  /** The three counters of a split: transitions with candidates, of those with something to test, of those excluded. */
  lemma CountsArePositions(rows: seq<Transition>, split: Split, excluded: set<string>)
    ensures CountIn(rows, split, Raw, excluded) ==
      |set k: nat | k < |rows| && rows[k].split == split && rows[k].candidates > 0|
    ensures CountIn(rows, split, Executable, excluded) ==
      |set k: nat | k < |rows| && rows[k].split == split && rows[k].candidates > 0 && rows[k].testable > 0|
    ensures CountIn(rows, split, Excluded, excluded) ==
      |set k: nat | k < |rows| && rows[k].split == split && rows[k].candidates > 0 && rows[k].testable > 0 &&
        rows[k].task.id in excluded|
  {
    var raw := (t: Transition) => t.split == split && t.candidates > 0;
    var executable := (t: Transition) => t.split == split && t.candidates > 0 && t.testable > 0;
    var dropped := (t: Transition) =>
      t.split == split && t.candidates > 0 && t.testable > 0 && t.task.id in excluded;
    CountWhere(rows, split, Raw, excluded, raw);
    CountWhere(rows, split, Executable, excluded, executable);
    CountWhere(rows, split, Excluded, excluded, dropped);
    assert Where(rows, raw) == set k: nat | k < |rows| && rows[k].split == split && rows[k].candidates > 0;
    assert Where(rows, executable) ==
      set k: nat | k < |rows| && rows[k].split == split && rows[k].candidates > 0 && rows[k].testable > 0;
    assert Where(rows, dropped) ==
      set k: nat | k < |rows| && rows[k].split == split && rows[k].candidates > 0 && rows[k].testable > 0 &&
        rows[k].task.id in excluded;
  }

  lemma {:induction false} RawIsPositions(rows: seq<Transition>)
    ensures RawTotal(rows) == |set k: nat | k < |rows| && rows[k].candidates > 0|
  {
    var all := set k: nat | k < |rows| && rows[k].candidates > 0;
    if |rows| == 0 {
      assert all == {};
    } else {
      var n := |rows| - 1;
      RawIsPositions(rows[..n]);
      var before := set k: nat | k < n && rows[..n][k].candidates > 0;
      assert all == before + if rows[n].candidates > 0 then {n} else {};
    }
  }

  /** Executable transitions less the excluded ones are the frozen ones. */
  lemma {:induction false} FrozenCount(rows: seq<Transition>, split: Split, excluded: set<string>)
    ensures CountIn(rows, split, Executable, excluded)
         == CountIn(rows, split, Excluded, excluded) + |TasksIn(FrozenRows(rows, excluded), split)|
  {
    if |rows| == 0 {
    } else {
      var front, last := rows[..|rows| - 1], rows[|rows| - 1];
      FrozenCount(front, split, excluded);
      var before := FrozenRows(front, excluded);
      if Frozen(last, excluded) {
        assert FrozenRows(rows, excluded)[..|before|] == before;
      } else {
        assert FrozenRows(rows, excluded) == before;
      }
    }
  }

  /** The splits partition the transitions with candidates. */
  lemma {:induction false} RawPartition(rows: seq<Transition>, excluded: set<string>)
    ensures RawTotal(rows) == CountIn(rows, Train, Raw, excluded) + CountIn(rows, Validation, Raw, excluded)
                            + CountIn(rows, Test, Raw, excluded)
  {
    if |rows| == 0 {
    } else {
      RawPartition(rows[..|rows| - 1], excluded);
    }
  }

  type Counter = map<Split, nat>

  function Tallied(counts: Counter, split: Split): nat {
    if split in counts then counts[split] else 0
  }

  function Bumped(counts: Counter, split: Split, bump: bool): Counter {
    if bump then counts[split := Tallied(counts, split) + 1] else counts
  }

  /** What the loop over the coverage collects. */
  datatype Survey = Survey(transitions: seq<Transition>, raw: Counter, executable: Counter, excludedCounts: Counter,
                           maxPrompt: nat, maxTestable: nat)

  ghost predicate Counts(counts: Counter, rows: seq<Transition>, stage: Stage, excluded: set<string>) {
    forall split :: Tallied(counts, split) == CountIn(rows, split, stage, excluded)
  }

  ghost predicate Surveyed(s: Survey, rows: seq<Transition>, excluded: set<string>) {
    && s.transitions == FrozenRows(rows, excluded)
    && s.maxPrompt == MaxPrompt(s.transitions) && s.maxTestable == MaxTestable(s.transitions)
    && Counts(s.raw, rows, Raw, excluded) && Counts(s.executable, rows, Executable, excluded)
    && Counts(s.excludedCounts, rows, Excluded, excluded)
  }

  lemma CountsNext(counts: Counter, rows: seq<Transition>, row: Transition, stage: Stage, excluded: set<string>)
    requires Counts(counts, rows, stage, excluded)
    ensures Counts(Bumped(counts, row.split, Reaches(row, stage, excluded)), rows + [row], stage, excluded)
  {
    var all, next := rows + [row], Bumped(counts, row.split, Reaches(row, stage, excluded));
    assert all[..|rows|] == rows;
    forall split ensures Tallied(next, split) == CountIn(all, split, stage, excluded) {
      assert Tallied(counts, split) == CountIn(rows, split, stage, excluded);
    }
  }

  lemma FrozenNext(rows: seq<Transition>, row: Transition, excluded: set<string>)
    ensures FrozenRows(rows + [row], excluded)
         == FrozenRows(rows, excluded) + if Frozen(row, excluded) then [row] else []
  {
    assert (rows + [row])[..|rows|] == rows;
  }

  lemma BoundsNext(rows: seq<Transition>, row: Transition)
    ensures MaxPrompt(rows + [row]) == Max(MaxPrompt(rows), row.promptTokens)
    ensures MaxTestable(rows + [row]) == Max(MaxTestable(rows), row.testable)
  {
    assert (rows + [row])[..|rows|] == rows;
  }

  /** One transition: which counters it bumps, and what it adds when it is frozen. */
  method SurveyRow(s: Survey, ghost read: seq<Transition>, row: Transition, excluded: set<string>)
    returns (next: Survey)
    requires Surveyed(s, read, excluded)
    ensures Surveyed(next, read + [row], excluded)
  {
    CountsNext(s.raw, read, row, Raw, excluded);
    CountsNext(s.executable, read, row, Executable, excluded);
    CountsNext(s.excludedCounts, read, row, Excluded, excluded);
    FrozenNext(read, row, excluded);
    next := s;
    if row.candidates > 0 {
      next := next.(raw := Bumped(s.raw, row.split, true));
      if row.testable > 0 {
        next := next.(executable := Bumped(s.executable, row.split, true));
        if row.task.id in excluded {
          next := next.(excludedCounts := Bumped(s.excludedCounts, row.split, true));
        } else {
          BoundsNext(s.transitions, row);
          next := next.(transitions := s.transitions + [row], maxPrompt := Max(s.maxPrompt, row.promptTokens),
                        maxTestable := Max(s.maxTestable, row.testable));
        }
      }
    }
  }

  method SurveyCoverage(rows: seq<Transition>, excluded: set<string>) returns (s: Survey)
    ensures Surveyed(s, rows, excluded)
  {
    s := Survey([], map[], map[], map[], 0, 0);
    for n := 0 to |rows|
      invariant Surveyed(s, rows[..n], excluded)
    {
      s := SurveyRow(s, rows[..n], rows[n], excluded);
      assert rows[..n + 1] == rows[..n] + [rows[n]];
    }
    assert rows[..|rows|] == rows;
  }

  // ---------- one manifest per split ----------

  /** Every transition within the bounds. */
  predicate Within(rows: seq<Transition>, maxPrompt: nat, maxTestable: nat) {
    forall k :: 0 <= k < |rows| ==> rows[k].promptTokens <= maxPrompt && rows[k].testable <= maxTestable
  }

  lemma {:induction false} MaximaBound(rows: seq<Transition>)
    ensures Within(rows, MaxPrompt(rows), MaxTestable(rows))
  {
    if |rows| == 0 {
    } else {
      var n := |rows| - 1;
      MaximaBound(rows[..n]);
      assert forall k :: 0 <= k < n ==> rows[..n][k] == rows[k];
    }
  }

  /** The maxima are reached by some transition. */
  lemma {:induction false} MaximaAttained(rows: seq<Transition>) returns (i: nat, j: nat)
    requires rows != []
    ensures i < |rows| && j < |rows|
    ensures MaxPrompt(rows) == rows[i].promptTokens && MaxTestable(rows) == rows[j].testable
  {
    var n := |rows| - 1;
    i, j := n, n;
    if n > 0 {
      var k, l := MaximaAttained(rows[..n]);
      i := if MaxPrompt(rows[..n]) < rows[n].promptTokens then n else k;
      j := if MaxTestable(rows[..n]) < rows[n].testable then n else l;
    }
  }

  /** The coverage as the selection of one split reads it. */
  function RowsFor(rows: seq<Transition>, split: Split): (r: seq<Row>)
    ensures |r| == |rows|
    ensures forall k :: 0 <= k < |r| ==>
      r[k] == Row(rows[k].task, rows[k].split == split, rows[k].testable, rows[k].promptTokens)
  {
    seq(|rows|, k requires 0 <= k < |rows| =>
      Row(rows[k].task, rows[k].split == split, rows[k].testable, rows[k].promptTokens))
  }

  /** A transition that can be tested has candidates. */
  predicate Coherent(rows: seq<Transition>) {
    forall k :: 0 <= k < |rows| ==> (rows[k].testable > 0 ==> rows[k].candidates > 0)
  }

  /**
   The frozen transitions of a split are eligible under the surveyed bounds, and in a coherent artifact
   nothing else is.
   */
  lemma {:induction false} FrozenAreEligible(rows: seq<Transition>, excluded: set<string>, split: Split,
                                             maxPrompt: nat, maxTestable: nat)
    requires Within(FrozenRows(rows, excluded), maxPrompt, maxTestable)
    ensures var eligible := EligibleTasks(RowsFor(rows, split), Limits(excluded, maxPrompt, maxTestable));
      var frozen := TasksIn(FrozenRows(rows, excluded), split);
      |frozen| <= |eligible| && (Coherent(rows) ==> eligible == frozen)
  {
    if |rows| == 0 {
    } else {
      var n := |rows| - 1;
      var front, last := rows[..n], rows[n];
      var mapped, limits := RowsFor(rows, split), Limits(excluded, maxPrompt, maxTestable);
      assert mapped[..n] == RowsFor(front, split);
      var before, all := FrozenRows(front, excluded), FrozenRows(rows, excluded);
      assert forall k :: 0 <= k < |before| ==> all[k] == before[k];
      FrozenAreEligible(front, excluded, split, maxPrompt, maxTestable);
      assert Coherent(rows) ==> Coherent(front);
      assert EligibleTasks(mapped, limits) == EligibleTasks(mapped[..n], limits) +
        if Eligible(mapped[n], limits) then [last.task] else [];
      if Frozen(last, excluded) {
        assert all[|before|] == last && all[..|before|] == before;
        assert Eligible(mapped[n], limits) <==> last.split == split;
      } else {
        assert all == before;
        assert Coherent(rows) ==> !Eligible(mapped[n], limits);
      }
    }
  }

  lemma SameTasks(rows: seq<Transition>, split: Split)
    ensures RowTasks(RowsFor(rows, split)) == AllTasks(rows)
  {
  }

  function AllTasks(rows: seq<Transition>): seq<Task> {
    seq(|rows|, k requires 0 <= k < |rows| => rows[k].task)
  }

  /** A part as large as the whole is the whole. */
  lemma WholePart(part: seq<Task>, whole: seq<Task>)
    requires multiset(part) <= multiset(whole) && |part| == |whole|
    ensures multiset(part) == multiset(whole)
  {
    var rest := multiset(whole) - multiset(part);
    assert multiset(whole) == multiset(part) + rest;
    assert |multiset(part)| == |part| && |multiset(whole)| == |whole|;
    assert |rest| == 0;
  }

  /** The bounds of the selections: the largest prompt and the most testable blocks of a frozen transition. */
  function SurveyLimits(rows: seq<Transition>, excluded: set<string>): Limits {
    Limits(excluded, MaxPrompt(FrozenRows(rows, excluded)), MaxTestable(FrozenRows(rows, excluded)))
  }

  /**
   What the manifest of a split promises: as many distinct tasks as it has frozen transitions, all of them
   eligible under the bounds of the survey, and in a coherent artifact exactly the frozen ones.
   */
  ghost predicate Manifest(tasks: seq<Task>, rows: seq<Transition>, excluded: set<string>, split: Split) {
    && |tasks| == |TasksIn(FrozenRows(rows, excluded), split)| > 0 && DistinctIds(tasks)
    && multiset(tasks) <= multiset(EligibleTasks(RowsFor(rows, split), SurveyLimits(rows, excluded)))
    && (Coherent(rows) ==> multiset(tasks) == multiset(TasksIn(FrozenRows(rows, excluded), split)))
  }

  /** Identifiers are present and distinct. */
  predicate Valid(rows: seq<Transition>, excluded: set<string>) {
    "" !in excluded && Identified(AllTasks(rows)) && DistinctIds(AllTasks(rows))
  }

  /** The selection of one split asks for exactly its frozen transitions; it fails exactly if there are none. */
  method SelectSplit(rows: seq<Transition>, s: Survey, excluded: set<string>, split: Split,
                     rank: string -> nat)
    returns (r: Result<seq<Task>>)
    requires Surveyed(s, rows, excluded)
    ensures r.Ok? <==> Valid(rows, excluded) && TasksIn(s.transitions, split) != []
    ensures r.Ok? ==> Manifest(r.value, rows, excluded, split)
  {
    var mapped, limits := RowsFor(rows, split), Limits(excluded, s.maxPrompt, s.maxTestable);
    SameTasks(rows, split);
    MaximaBound(s.transitions);
    FrozenCount(rows, split, excluded);
    FrozenAreEligible(rows, excluded, split, s.maxPrompt, s.maxTestable);
    if TasksIn(s.transitions, split) != [] {
      BoundsArePositive(rows, s, excluded, split);
    }
    r := SelectReferenceExpansion(mapped, limits, map[],
                                  Tallied(s.executable, split) - Tallied(s.excludedCounts, split), rank);
    if r.Ok? && Coherent(rows) {
      WholePart(r.value, EligibleTasks(mapped, limits));
    }
  }

  lemma {:induction false} BoundsArePositive(rows: seq<Transition>, s: Survey, excluded: set<string>, split: Split)
    requires Surveyed(s, rows, excluded) && TasksIn(s.transitions, split) != []
    ensures s.maxPrompt >= 1 && s.maxTestable >= 1
  {
    assert s.transitions != [];
    MaximaBound(s.transitions);
    FrozenMember(rows, excluded, s.transitions[0]);
  }

  // ---------- sorting ----------

  function Rank(split: Split): nat {
    match split
    case Train => 0
    case Validation => 1
    case Test => 2
  }

  /** The sort key: split, then task ID. */
  predicate SortsBefore(a: Transition, b: Transition) {
    Rank(a.split) < Rank(b.split) || (a.split == b.split && Less(a.task.id, b.task.id))
  }

  predicate Sorted(rows: seq<Transition>) {
    forall k :: 0 < k < |rows| ==> InOrder(rows, k)
  }

  predicate InOrder(rows: seq<Transition>, k: nat)
    requires 0 < k < |rows|
  {
    !SortsBefore(rows[k], rows[k - 1])
  }

  lemma KeyIsTotal(a: Transition, b: Transition)
    ensures !(SortsBefore(a, b) && SortsBefore(b, a))
  {
    LessIsTotal(a.task.id, b.task.id);
  }

  /** No transition comes before one of an earlier split or, within a split, of a smaller ID. */
  predicate Follows(b: Transition, a: Transition) {
    && (b.split == Train ==> a.split == Train) && (a.split == Test ==> b.split == Test)
    && (a.split == b.split ==> !Less(b.task.id, a.task.id))
  }

  lemma FollowsIsOrder(a: Transition, b: Transition)
    ensures Follows(b, a) <==> !SortsBefore(b, a)
  {
  }

  lemma FollowsTransitive(a: Transition, b: Transition, c: Transition)
    requires Follows(b, a) && Follows(c, b)
    ensures Follows(c, a)
  {
    LessIsTotal(a.task.id, b.task.id);
    LessIsTotal(b.task.id, c.task.id);
    if a.split == c.split && Less(c.task.id, a.task.id) {
      if a.task.id != b.task.id {
        LessTransitive(c.task.id, a.task.id, b.task.id);
      }
      assert false;
    }
  }

  /** A sorted list is in order throughout: train, validation, test, and within a split by task ID. */
  lemma {:induction false} SortedMeaning(rows: seq<Transition>, i: nat, j: nat)
    requires Sorted(rows) && i < j < |rows|
    ensures Follows(rows[j], rows[i])
    decreases j
  {
    assert InOrder(rows, j);
    FollowsIsOrder(rows[j - 1], rows[j]);
    if i < j - 1 {
      SortedMeaning(rows, i, j - 1);
      FollowsTransitive(rows[i], rows[j - 1], rows[j]);
    }
  }

  /** The place of a transition, searched from the end so that equal keys keep their order. */
  method FindPlace(sorted: seq<Transition>, row: Transition) returns (k: nat)
    ensures k <= |sorted| && (k < |sorted| ==> SortsBefore(row, sorted[k])) &&
      (k > 0 ==> !SortsBefore(row, sorted[k - 1]))
  {
    k := |sorted|;
    while k > 0 && SortsBefore(row, sorted[k - 1])
      invariant k <= |sorted| && (k < |sorted| ==> SortsBefore(row, sorted[k]))
    {
      k := k - 1;
    }
  }

  method SortTransitions(rows: seq<Transition>) returns (sorted: seq<Transition>)
    ensures Arranges(sorted, rows)
  {
    sorted := [];
    for n := 0 to |rows|
      invariant Arranges(sorted, rows[..n])
    {
      var k := FindPlace(sorted, rows[n]);
      assert rows[..n + 1] == rows[..n] + [rows[n]];
      InsertArranges(sorted, rows[..n], rows[n], k);
      sorted := Inserted(sorted, rows[n], k);
    }
    assert rows[..|rows|] == rows;
  }

  /** A sorted permutation, of as many blocks. */
  predicate Arranges(sorted: seq<Transition>, rows: seq<Transition>) {
    Sorted(sorted) && multiset(sorted) == multiset(rows) && |sorted| == |rows| &&
      TestableBlocks(sorted) == TestableBlocks(rows)
  }

  lemma InsertArranges(sorted: seq<Transition>, rows: seq<Transition>, row: Transition, k: nat)
    requires Arranges(sorted, rows) && k <= |sorted|
    requires k < |sorted| ==> SortsBefore(row, sorted[k])
    requires k > 0 ==> !SortsBefore(row, sorted[k - 1])
    ensures Arranges(Inserted(sorted, row, k), rows + [row])
  {
    InsertSorted(sorted, row, k);
    InsertConserves(sorted, row, k);
    BlocksAppend(rows, row);
  }

  function Inserted(rows: seq<Transition>, row: Transition, k: nat): seq<Transition>
    requires k <= |rows|
  {
    rows[..k] + [row] + rows[k..]
  }

  lemma InsertSorted(rows: seq<Transition>, row: Transition, k: nat)
    requires Sorted(rows) && k <= |rows|
    requires k < |rows| ==> SortsBefore(row, rows[k])
    requires k > 0 ==> !SortsBefore(row, rows[k - 1])
    ensures Sorted(Inserted(rows, row, k))
  {
    var next := Inserted(rows, row, k);
    forall i | 0 < i < |next| ensures InOrder(next, i) {
      if i < k {
        assert InOrder(rows, i);
      } else if i > k + 1 {
        assert InOrder(rows, i - 1);
      } else if i == k + 1 {
        KeyIsTotal(row, rows[k]);
      }
    }
  }

  lemma {:induction false} InsertConserves(rows: seq<Transition>, row: Transition, k: nat)
    requires k <= |rows|
    ensures multiset(Inserted(rows, row, k)) == multiset(rows) + multiset{row} && |Inserted(rows, row, k)| == |rows| + 1
    ensures TestableBlocks(Inserted(rows, row, k)) == TestableBlocks(rows) + row.testable
  {
    assert rows == rows[..k] + rows[k..];
    BlocksConcat(rows[..k] + [row], rows[k..]);
    BlocksAppend(rows[..k], row);
    BlocksConcat(rows[..k], rows[k..]);
  }

  lemma {:induction false} BlocksAppend(rows: seq<Transition>, row: Transition)
    ensures TestableBlocks(rows + [row]) == TestableBlocks(rows) + row.testable
  {
    assert (rows + [row])[..|rows|] == rows;
  }

  lemma {:induction false} BlocksConcat(a: seq<Transition>, b: seq<Transition>)
    ensures TestableBlocks(a + b) == TestableBlocks(a) + TestableBlocks(b)
  {
    if |b| == 0 {
      assert a + b == a;
    } else {
      var n := |b| - 1;
      assert a + b == (a + b[..n]) + [b[n]];
      BlocksAppend(a + b[..n], b[n]);
      BlocksConcat(a, b[..n]);
    }
  }

  // ---------- the plan ----------

  function CaseOf(t: Transition): Case {
    Case(t.split, t.testable)
  }

  function Cases(rows: seq<Transition>): (cs: seq<Case>)
    ensures |cs| == |rows| && forall k :: 0 <= k < |cs| ==> cs[k] == CaseOf(rows[k])
  {
    seq(|rows|, k requires 0 <= k < |rows| => CaseOf(rows[k]))
  }

  lemma {:induction false} CaseBlocks(rows: seq<Transition>, n: nat)
    requires n <= |rows|
    ensures Blocks(Cases(rows), 0, n) == TestableBlocks(rows[..n])
  {
    if n == 0 {
    } else {
      CaseBlocks(rows, n - 1);
      assert rows[..n][..n - 1] == rows[..n - 1];
    }
  }

  /** Testable blocks of the transitions `i` up to `j`. */
  ghost function Tested(rows: seq<Transition>, i: nat, j: nat): nat
    requires i <= j <= |rows|
  {
    Sum(Testables(rows[i..j]))
  }

  lemma {:induction false} CasesTested(rows: seq<Transition>, i: nat, j: nat)
    requires i <= j <= |rows|
    ensures Blocks(Cases(rows), i, j) == Tested(rows, i, j)
  {
    if i < j {
      CasesTested(rows, i, j - 1);
      assert Testables(rows[i..j])[..j - 1 - i] == Testables(rows[i..j - 1]);
    }
  }

  /** What a batch may hold: transitions of one split, within the target unless a single one exceeds it. */
  ghost predicate Fits(rows: seq<Transition>, target: nat, i: nat, j: nat) {
    && i < j <= |rows| && (forall k :: i <= k < j ==> rows[k].split == rows[i].split)
    && (Tested(rows, i, j) <= target || j == i + 1)
  }

  lemma FitsIsAdmissible(rows: seq<Transition>, target: nat, i: nat, j: nat)
    ensures Fits(rows, target, i, j) <==> Admissible(Cases(rows), target, i, j)
  {
    if i < j <= |rows| {
      CasesTested(rows, i, j);
      assert forall k :: i <= k < j ==> Cases(rows)[k].split == rows[k].split;
    }
  }

  ghost predicate FitsAt(rows: seq<Transition>, target: nat, cuts: seq<nat>, k: nat)
    requires 0 < k < |cuts|
  {
    Fits(rows, target, cuts[k - 1], cuts[k])
  }

  /** Cut points of batches that cover all transitions in order. */
  ghost predicate Splits(rows: seq<Transition>, target: nat, cuts: seq<nat>) {
    && |cuts| > 0 && cuts[0] == 0 && cuts[|cuts| - 1] == |rows|
    && forall k :: 0 < k < |cuts| ==> FitsAt(rows, target, cuts, k)
  }

  lemma SplitsIsPlan(rows: seq<Transition>, target: nat, cuts: seq<nat>)
    ensures Splits(rows, target, cuts) <==> Plan(Cases(rows), target, cuts)
  {
    forall k | 0 < k < |cuts| ensures FitsAt(rows, target, cuts, k) <==> Piece(Cases(rows), target, cuts, k) {
      FitsIsAdmissible(rows, target, cuts[k - 1], cuts[k]);
    }
    if Splits(rows, target, cuts) {
      forall k | 0 < k < |cuts| ensures Piece(Cases(rows), target, cuts, k) {
        assert FitsAt(rows, target, cuts, k);
      }
    }
    if Plan(Cases(rows), target, cuts) {
      forall k | 0 < k < |cuts| ensures FitsAt(rows, target, cuts, k) {
        assert Piece(Cases(rows), target, cuts, k);
      }
    }
  }

  /** The record of a batch: its number, split, first transition, and how many transitions and blocks it holds. */
  ghost predicate BatchAt(batches: seq<Batch>, rows: seq<Transition>, cuts: seq<nat>, k: nat)
    requires 0 < k < |cuts| == |batches| + 1
  {
    var i, j, b := cuts[k - 1], cuts[k], batches[k - 1];
    && i < j <= |rows| && b.number == k && b.split == Some(rows[i].split) && b.startCase == i + 1
    && b.caseCount == j - i && b.blockCount == Tested(rows, i, j)
  }

  lemma RecordsDescribe(batches: seq<Batch>, rows: seq<Transition>, cuts: seq<nat>)
    requires Describes(batches, Cases(rows), cuts)
    ensures forall k :: 0 < k < |cuts| ==> BatchAt(batches, rows, cuts, k)
  {
    forall k | 0 < k < |cuts| ensures BatchAt(batches, rows, cuts, k) {
      assert Recorded(batches, Cases(rows), cuts, k);
      CasesTested(rows, cuts[k - 1], cuts[k]);
    }
  }

  datatype Manifests = Manifests(train: seq<Task>, validation: seq<Task>, test: seq<Task>)

  datatype ReferencePlan = ReferencePlan(manifests: Manifests, transitions: seq<Transition>, batches: seq<Batch>)

  /** Each manifest is that of its split. */
  ghost predicate Manifested(m: Manifests, rows: seq<Transition>, excluded: set<string>) {
    && Manifest(m.train, rows, excluded, Train) && Manifest(m.validation, rows, excluded, Validation)
    && Manifest(m.test, rows, excluded, Test)
  }

  /** Every split has a frozen transition. */
  predicate EverySplit(rows: seq<Transition>, excluded: set<string>) {
    forall split :: TasksIn(FrozenRows(rows, excluded), split) != []
  }

  /** The loop over the splits: it fails at the first one without a frozen transition. */
  method SelectSplits(rows: seq<Transition>, s: Survey, excluded: set<string>, rank: string -> nat)
    returns (r: Result<Manifests>)
    requires Surveyed(s, rows, excluded)
    ensures r.Ok? <==> Valid(rows, excluded) && EverySplit(rows, excluded)
    ensures r.Ok? ==> Manifested(r.value, rows, excluded)
  {
    var train := SelectSplit(rows, s, excluded, Train, rank);
    if train.Err? {
      return Err(train.reason);
    }
    var validation := SelectSplit(rows, s, excluded, Validation, rank);
    if validation.Err? {
      return Err(validation.reason);
    }
    var test := SelectSplit(rows, s, excluded, Test, rank);
    if test.Err? {
      return Err(test.reason);
    }
    forall split ensures TasksIn(FrozenRows(rows, excluded), split) != [] {
      assert split == Train || split == Validation || split == Test;
    }
    return Ok(Manifests(train.value, validation.value, test.value));
  }

  /**
   The whole plan. It exists exactly for a positive target, the declared number of transitions with
   candidates, valid identifiers and a frozen transition in every split. Its manifests hold the frozen
   transitions of their splits, and its batches cover the sorted transitions in the fewest batches of
   one split each that keep the target, losing no block.
   */
  method FreezeReferencePlan(rows: seq<Transition>, declared: int, excluded: set<string>, target: int,
                             rank: string -> nat)
    returns (r: Result<ReferencePlan>, ghost cuts: seq<nat>)
    ensures r.Ok? <==> target >= 1 && RawTotal(rows) == declared && Valid(rows, excluded) && EverySplit(rows, excluded)
    ensures r.Ok? ==> Manifested(r.value.manifests, rows, excluded)
    ensures r.Ok? ==>
      Sorted(r.value.transitions) && multiset(r.value.transitions) == multiset(FrozenRows(rows, excluded))
    ensures r.Ok? ==>
      && Splits(r.value.transitions, target, cuts) && |cuts| == |r.value.batches| + 1
      && forall k :: 0 < k < |cuts| ==> BatchAt(r.value.batches, r.value.transitions, cuts, k)
    ensures r.Ok? ==> forall other :: Splits(r.value.transitions, target, other) ==>
      |r.value.batches| <= |other| - 1
    ensures r.Ok? ==> BlockTotal(r.value.batches) == TestableBlocks(FrozenRows(rows, excluded))
    ensures r.Ok? ==> CaseTotal(r.value.batches) == |FrozenRows(rows, excluded)|
  {
    cuts := [];
    if target < 1 {
      return Err("target blocks per batch must be positive"), cuts;
    }
    var survey := SurveyCoverage(rows, excluded);
    RawPartition(rows, excluded);
    if Tallied(survey.raw, Train) + Tallied(survey.raw, Validation) + Tallied(survey.raw, Test) != declared {
      return Err("coverage candidate transition count is inconsistent"), cuts;
    }
    var manifests := SelectSplits(rows, survey, excluded, rank);
    if manifests.Err? {
      return Err(manifests.reason), cuts;
    }
    var sorted := SortTransitions(survey.transitions);
    var batches;
    batches, cuts := GreedyBatches(Cases(sorted), target);
    BatchesConserveBlocks(Cases(sorted), batches, cuts);
    SplitsIsPlan(sorted, target, cuts);
    RecordsDescribe(batches, sorted, cuts);
    forall other | Splits(sorted, target, other) ensures |batches| <= |other| - 1 {
      SplitsIsPlan(sorted, target, other);
    }
    CaseBlocks(sorted, |sorted|);
    assert sorted[..|sorted|] == sorted;
    return Ok(ReferencePlan(manifests.value, sorted, batches)), cuts;
  }
}
