/** The blind semantic review: A/B slots, grouping of identical pairs, applying verdicts, unblinding. */
module BlindReview {
  import opened Common

  type Text = string

  /** An abstained trial, in the order the review lists them. */
  datatype Trial = Trial(id: string, block: nat, question: Text, expected: Text, reference: Text, intervention: Text,
                         stability: Option<Text>)

  datatype Slot = A | B
  datatype Verdict = Equivalent | Better(slot: Slot) | Unclear
  datatype Decision = Reuse | Repair | Abstain

  datatype ReviewRow = ReviewRow(id: nat, question: Text, expected: Text, a: Text, b: Text, independent: Option<Text>)
  datatype KeyRow = KeyRow(id: nat, trial: string, block: nat, interventionSlot: Slot)

  // ---------- preparing ----------

  /** The coin decides which slot hides the reference. */
  function BlindRow(t: Trial, id: nat, referenceIsA: bool): ReviewRow {
    if referenceIsA then ReviewRow(id, t.question, t.expected, t.reference, t.intervention, t.stability)
    else ReviewRow(id, t.question, t.expected, t.intervention, t.reference, t.stability)
  }

  function IdentityRow(t: Trial, id: nat, referenceIsA: bool): KeyRow {
    KeyRow(id, t.id, t.block, if referenceIsA then B else A)
  }

  /**
   What preparing hides and keeps of one trial: the row shows both texts without their names, and only
   the identity row tells which slot holds the intervention.
   */
  ghost predicate Hides(row: ReviewRow, key: KeyRow, t: Trial, id: nat, referenceIsA: bool) {
    && row.id == key.id == id && key.trial == t.id && key.block == t.block
    && row.question == t.question && row.expected == t.expected && row.independent == t.stability
    && (referenceIsA ==> row.a == t.reference && row.b == t.intervention && key.interventionSlot == B)
    && (!referenceIsA ==> row.a == t.intervention && row.b == t.reference && key.interventionSlot == A)
  }

  method PrepareReview(trials: seq<Trial>, coin: string -> bool) returns (rows: seq<ReviewRow>, keys: seq<KeyRow>)
    ensures |rows| == |keys| == |trials|
    ensures forall i :: 0 <= i < |trials| ==> rows[i] == BlindRow(trials[i], i + 1, coin(trials[i].id))
    ensures forall i :: 0 <= i < |trials| ==> keys[i] == IdentityRow(trials[i], i + 1, coin(trials[i].id))
    ensures forall i :: 0 <= i < |trials| ==> Hides(rows[i], keys[i], trials[i], i + 1, coin(trials[i].id))
  {
    rows, keys := [], [];
    for i := 0 to |trials|
      invariant |rows| == |keys| == i
      invariant forall j :: 0 <= j < i ==> rows[j] == BlindRow(trials[j], j + 1, coin(trials[j].id))
      invariant forall j :: 0 <= j < i ==> keys[j] == IdentityRow(trials[j], j + 1, coin(trials[j].id))
    {
      var heads := coin(trials[i].id);
      rows := rows + [BlindRow(trials[i], i + 1, heads)];
      keys := keys + [IdentityRow(trials[i], i + 1, heads)];
    }
  }

  // ---------- grouping ----------

  /** What makes two rows the same review: everything but the order of the answers. */
  datatype GroupKey = GroupKey(question: Text, expected: Text, lo: Text, hi: Text, independent: Option<Text>)

  function KeyOf(row: ReviewRow): GroupKey {
    if Less(row.b, row.a) then GroupKey(row.question, row.expected, row.b, row.a, row.independent)
    else GroupKey(row.question, row.expected, row.a, row.b, row.independent)
  }

  /** Rows share a key exactly when they ask the same question about the same two answers, in either order. */
  lemma KeysAgreeIff(x: ReviewRow, y: ReviewRow)
    ensures KeyOf(x) == KeyOf(y) <==>
      && x.question == y.question && x.expected == y.expected && x.independent == y.independent
      && ((x.a == y.a && x.b == y.b) || (x.a == y.b && x.b == y.a))
  {
    LessIsTotal(x.a, x.b);
    LessIsTotal(y.a, y.b);
  }

  /** The key does not depend on the coin. */
  lemma KeyIgnoresCoin(t: Trial, id: nat, id': nat)
    ensures KeyOf(BlindRow(t, id, true)) == KeyOf(BlindRow(t, id', false))
  {
    LessIsTotal(t.reference, t.intervention);
  }

  function TrialKey(t: Trial): (k: GroupKey)
    ensures (k.lo == t.reference && k.hi == t.intervention) || (k.lo == t.intervention && k.hi == t.reference)
  {
    KeyOf(BlindRow(t, 0, true))
  }

  /** Rows with a given key, by review ID. */
  function IdsWith(rows: seq<ReviewRow>, key: GroupKey): seq<nat> {
    if |rows| == 0 then []
    else IdsWith(rows[..|rows| - 1], key) + if KeyOf(rows[|rows| - 1]) == key then [rows[|rows| - 1].id] else []
  }

  /** The IDs of a key are those of its rows, once per row and in row order; `at` lists their positions. */
  lemma IdsArePositions(rows: seq<ReviewRow>, key: GroupKey) returns (at: seq<nat>)
    ensures Increasing(at) && forall i: nat :: i in at <==> i < |rows| && KeyOf(rows[i]) == key
    ensures |at| == |IdsWith(rows, key)|
    ensures forall k :: 0 <= k < |at| ==> at[k] < |rows| && IdsWith(rows, key)[k] == rows[at[k]].id
  {
    at := IdsSelected(rows, key, (row: ReviewRow) => KeyOf(row) == key);
  }

  lemma {:induction false} IdsSelected(rows: seq<ReviewRow>, key: GroupKey, p: ReviewRow -> bool)
    returns (at: seq<nat>)
    requires forall row :: p(row) <==> KeyOf(row) == key
    ensures Selects(at, rows, p) && |at| == |IdsWith(rows, key)|
    ensures forall k :: 0 <= k < |at| ==> at[k] < |rows| && IdsWith(rows, key)[k] == rows[at[k]].id
  {
    if |rows| == 0 {
      at := [];
    } else {
      var n := |rows| - 1;
      var front := IdsSelected(rows[..n], key, p);
      SelectsNext(front, rows, p);
      at := front + if p(rows[n]) then [n] else [];
    }
  }

  datatype Group = Group(key: GroupKey, ids: seq<nat>)

  function Occurrences(groups: seq<Group>): nat {
    if |groups| == 0 then 0 else Occurrences(groups[..|groups| - 1]) + |groups[|groups| - 1].ids|
  }

  /** The groups list every key once, each with all its rows. */
  ghost predicate Grouping(groups: seq<Group>, rows: seq<ReviewRow>) {
    && (forall i, j :: 0 <= i < j < |groups| ==> groups[i].key != groups[j].key)
    && (forall i :: 0 <= i < |groups| ==> groups[i].ids == IdsWith(rows, groups[i].key) && groups[i].ids != [])
    && (forall r :: r in rows ==> exists i :: 0 <= i < |groups| && groups[i].key == KeyOf(r))
  }

  /** All rows, inserted one by one. */
  method CompactReview(rows: seq<ReviewRow>) returns (groups: seq<Group>)
    ensures Grouping(groups, rows) && Occurrences(groups) == |rows|
  {
    groups := [];
    for n := 0 to |rows|
      invariant Grouping(groups, rows[..n]) && Occurrences(groups) == n
    {
      groups := InsertRow(groups, rows[..n], rows[n]);
      assert rows[..n + 1] == rows[..n] + [rows[n]];
    }
    assert rows[..|rows|] == rows;
  }

  /** Insertion into the group of a row's key, or a new group at the end. */
  method InsertRow(groups: seq<Group>, ghost before: seq<ReviewRow>, row: ReviewRow) returns (next: seq<Group>)
    requires Grouping(groups, before)
    ensures Grouping(next, before + [row]) && Occurrences(next) == Occurrences(groups) + 1
  {
    var g := FindGroup(groups, KeyOf(row));
    if g < |groups| {
      JoinGroup(groups, before, row, g);
      next := groups[g := Group(KeyOf(row), groups[g].ids + [row.id])];
    } else {
      OpenGroup(groups, before, row);
      next := groups + [Group(KeyOf(row), [row.id])];
    }
  }

  method FindGroup(groups: seq<Group>, key: GroupKey) returns (g: nat)
    ensures g <= |groups| && (g < |groups| ==> groups[g].key == key)
    ensures g == |groups| ==> forall i :: 0 <= i < |groups| ==> groups[i].key != key
  {
    g := 0;
    while g < |groups| && groups[g].key != key
      invariant g <= |groups| && forall i :: 0 <= i < g ==> groups[i].key != key
    {
      g := g + 1;
    }
  }

  lemma IdsNext(rows: seq<ReviewRow>, row: ReviewRow, key: GroupKey)
    ensures IdsWith(rows + [row], key) == IdsWith(rows, key) + if KeyOf(row) == key then [row.id] else []
  {
    assert (rows + [row])[..|rows|] == rows;
  }

  lemma {:induction false} OccurrencesUpdate(groups: seq<Group>, g: nat, group: Group)
    requires g < |groups|
    ensures Occurrences(groups[g := group]) + |groups[g].ids| == Occurrences(groups) + |group.ids|
  {
    var n := |groups| - 1;
    if g < n {
      OccurrencesUpdate(groups[..n], g, group);
      assert groups[g := group][..n] == groups[..n][g := group];
    } else {
      assert groups[g := group][..n] == groups[..n];
    }
  }

  lemma JoinGroup(groups: seq<Group>, rows: seq<ReviewRow>, row: ReviewRow, g: nat)
    requires Grouping(groups, rows) && g < |groups| && groups[g].key == KeyOf(row)
    ensures var next := groups[g := Group(KeyOf(row), groups[g].ids + [row.id])];
      Grouping(next, rows + [row]) && Occurrences(next) == Occurrences(groups) + 1
  {
    var next, all := groups[g := Group(KeyOf(row), groups[g].ids + [row.id])], rows + [row];
    OccurrencesUpdate(groups, g, next[g]);
    forall i | 0 <= i < |next| ensures next[i].ids == IdsWith(all, next[i].key) && next[i].ids != [] {
      IdsNext(rows, row, next[i].key);
      assert i != g ==> next[i] == groups[i] && groups[i].key != groups[g].key;
    }
    forall r | r in all ensures exists i :: 0 <= i < |next| && next[i].key == KeyOf(r) {
      if r in rows {
        var i :| 0 <= i < |groups| && groups[i].key == KeyOf(r);
        assert next[i].key == KeyOf(r);
      } else {
        assert next[g].key == KeyOf(r);
      }
    }
  }

  lemma {:induction false} NoIds(rows: seq<ReviewRow>, key: GroupKey)
    requires forall r :: r in rows ==> KeyOf(r) != key
    ensures IdsWith(rows, key) == []
  {
    if |rows| == 0 {
    } else {
      assert rows[|rows| - 1] in rows;
      NoIds(rows[..|rows| - 1], key);
    }
  }

  lemma {:induction false} OpenGroup(groups: seq<Group>, rows: seq<ReviewRow>, row: ReviewRow)
    requires Grouping(groups, rows) && forall i :: 0 <= i < |groups| ==> groups[i].key != KeyOf(row)
    ensures var next := groups + [Group(KeyOf(row), [row.id])];
      Grouping(next, rows + [row]) && Occurrences(next) == Occurrences(groups) + 1
  {
    var next, all := groups + [Group(KeyOf(row), [row.id])], rows + [row];
    assert next[..|groups|] == groups;
    forall r | r in rows ensures KeyOf(r) != KeyOf(row) {
      var i :| 0 <= i < |groups| && groups[i].key == KeyOf(r);
    }
    NoIds(rows, KeyOf(row));
    forall i | 0 <= i < |next| ensures next[i].ids == IdsWith(all, next[i].key) && next[i].ids != [] {
      IdsNext(rows, row, next[i].key);
      assert i < |groups| ==> next[i] == groups[i];
    }
    forall r | r in all ensures exists i :: 0 <= i < |next| && next[i].key == KeyOf(r) {
      if r in rows {
        var i :| 0 <= i < |groups| && groups[i].key == KeyOf(r);
        assert next[i].key == KeyOf(r);
      } else {
        assert next[|groups|].key == KeyOf(r);
      }
    }
  }

  // ---------- applying verdicts ----------

  function Swap(s: Slot): Slot {
    if s == A then B else A
  }

  /** A verdict on the sorted pair, read in the slots of one row. */
  function Translate(v: Verdict, row: ReviewRow): Verdict {
    if v.Better? && row.a != KeyOf(row).lo then Better(Swap(v.slot)) else v
  }

  /** What a reviewer fills in: a verdict, absent until it is one of the allowed ones, and a reason. */
  datatype Judgement = Judgement(verdict: Option<Verdict>, reason: Text) {
    predicate Complete() { verdict.Some? && reason != "" }
  }

  /** A judgement on the sorted pair, read in the slots of one row. */
  function TranslateFor(j: Judgement, row: ReviewRow): Judgement
    requires j.verdict.Some?
  {
    Judgement(Some(Translate(j.verdict.value, row)), j.reason)
  }

  /** A reviewed compact row. */
  datatype Reviewed = Reviewed(key: GroupKey, judgement: Judgement)

  predicate Finished(reviews: seq<Reviewed>) {
    forall i :: 0 <= i < |reviews| ==> reviews[i].judgement.Complete()
  }

  ghost predicate Covers(reviews: seq<Reviewed>, rows: seq<ReviewRow>) {
    forall r :: r in rows ==> exists i :: 0 <= i < |reviews| && reviews[i].key == KeyOf(r)
  }

  function KeysOf(reviews: seq<Reviewed>): seq<GroupKey> {
    seq(|reviews|, i requires 0 <= i < |reviews| => reviews[i].key)
  }

  /** No later compact row has the same key. */
  predicate IsLast(reviews: seq<Reviewed>, i: nat)
    requires i < |reviews|
  {
    forall j :: i < j < |reviews| ==> reviews[j].key != reviews[i].key
  }

  /** What the dictionary holds after some compact rows: complete judgements, of every key that of its last row. */
  ghost predicate Holds(verdicts: map<GroupKey, Judgement>, reviews: seq<Reviewed>) {
    && verdicts.Keys == Elements(KeysOf(reviews)) && (forall key :: key in verdicts ==> verdicts[key].Complete())
    && forall i :: 0 <= i < |reviews| && IsLast(reviews, i) ==>
         reviews[i].key in verdicts && reviews[i].judgement == verdicts[reviews[i].key]
  }

  lemma HoldsNext(verdicts: map<GroupKey, Judgement>, read: seq<Reviewed>, row: Reviewed)
    requires Holds(verdicts, read) && row.judgement.Complete()
    ensures Holds(verdicts[row.key := row.judgement], read + [row])
  {
    var all, next := read + [row], verdicts[row.key := row.judgement];
    assert KeysOf(all) == KeysOf(read) + [row.key];
    forall i | 0 <= i < |all| && IsLast(all, i) ensures all[i].key in next && all[i].judgement == next[all[i].key] {
      if i < |read| {
        assert all[|read|].key != all[i].key;
        forall j | i < j < |read| ensures read[j].key != read[i].key {
          assert all[j].key != all[i].key;
        }
        assert IsLast(read, i);
      }
    }
  }

  /** The verdict dictionary, filled in row order. */
  method CollectVerdicts(reviews: seq<Reviewed>) returns (r: Result<map<GroupKey, Judgement>>)
    ensures r.Ok? <==> Finished(reviews)
    ensures r.Ok? ==> Holds(r.value, reviews)
  {
    var verdicts: map<GroupKey, Judgement> := map[];
    assert KeysOf(reviews[..0]) == [];
    for n := 0 to |reviews|
      invariant Finished(reviews[..n]) && Holds(verdicts, reviews[..n])
    {
      var row := reviews[n];
      if row.judgement.verdict.None? || row.judgement.reason == "" {
        return Err("group is incomplete");
      }
      assert reviews[..n + 1] == reviews[..n] + [row];
      HoldsNext(verdicts, reviews[..n], row);
      verdicts := verdicts[row.key := row.judgement];
    }
    assert reviews[..|reviews|] == reviews;
    return Ok(verdicts);
  }

  /** The judgement of a row is that of its key, in its own slots. */
  predicate AppliedTo(j: Judgement, row: ReviewRow, verdicts: map<GroupKey, Judgement>) {
    KeyOf(row) in verdicts && verdicts[KeyOf(row)].verdict.Some? && j == TranslateFor(verdicts[KeyOf(row)], row)
  }

  /** Looking up every row; a key without a verdict is an error. */
  method ApplyVerdicts(rows: seq<ReviewRow>, verdicts: map<GroupKey, Judgement>) returns (r: Result<seq<Judgement>>)
    requires forall key :: key in verdicts ==> verdicts[key].Complete()
    ensures r.Ok? ==> |r.value| == |rows| && forall i :: 0 <= i < |rows| ==> AppliedTo(r.value[i], rows[i], verdicts)
    ensures r.Err? ==> exists i :: 0 <= i < |rows| && KeyOf(rows[i]) !in verdicts
  {
    var applied: seq<Judgement> := [];
    for n := 0 to |rows|
      invariant |applied| == n && forall i :: 0 <= i < n ==> AppliedTo(applied[i], rows[i], verdicts)
    {
      var key := KeyOf(rows[n]);
      if key !in verdicts {
        return Err("row has no verdict");
      }
      applied := applied + [TranslateFor(verdicts[key], rows[n])];
    }
    return Ok(applied);
  }

  /** Copying the group verdicts back to every row, slots adjusted, then checking the coverage. */
  method ApplyReview(rows: seq<ReviewRow>, reviews: seq<Reviewed>, groupCount: nat, trialCount: nat)
    returns (r: Result<seq<Judgement>>)
    ensures r.Ok? <==>
      && Finished(reviews) && Covers(reviews, rows)
      && |Elements(KeysOf(reviews))| == groupCount && |rows| == trialCount
    ensures r.Ok? ==> |r.value| == |rows| && forall i :: 0 <= i < |rows| ==> r.value[i].Complete()
    ensures r.Ok? ==> forall i, g ::
      0 <= i < |rows| && 0 <= g < |reviews| && IsLast(reviews, g) && reviews[g].key == KeyOf(rows[i]) ==>
        r.value[i] == TranslateFor(reviews[g].judgement, rows[i])
  {
    var verdicts := CollectVerdicts(reviews);
    if verdicts.Err? {
      return Err(verdicts.reason);
    }
    r := ApplyVerdicts(rows, verdicts.value);
    CoveredIff(reviews, rows, verdicts.value);
    if r.Ok? && (|verdicts.value| != groupCount || |rows| != trialCount) {
      r := Err("compact review has incomplete coverage");
    }
  }

  lemma CoveredIff(reviews: seq<Reviewed>, rows: seq<ReviewRow>, verdicts: map<GroupKey, Judgement>)
    requires verdicts.Keys == Elements(KeysOf(reviews))
    ensures Covers(reviews, rows) <==> forall i :: 0 <= i < |rows| ==> KeyOf(rows[i]) in verdicts
    ensures |verdicts| == |Elements(KeysOf(reviews))|
  {
    assert |verdicts| == |verdicts.Keys|;
    if Covers(reviews, rows) {
      forall i | 0 <= i < |rows| ensures KeyOf(rows[i]) in verdicts {
        assert rows[i] in rows;
        var g :| 0 <= g < |reviews| && reviews[g].key == KeyOf(rows[i]);
        assert KeysOf(reviews)[g] in KeysOf(reviews);
      }
    }
    if forall i :: 0 <= i < |rows| ==> KeyOf(rows[i]) in verdicts {
      forall row | row in rows ensures exists g :: 0 <= g < |reviews| && reviews[g].key == KeyOf(row) {
        var i :| 0 <= i < |rows| && rows[i] == row;
        assert KeyOf(rows[i]) in KeysOf(reviews);
        var g :| 0 <= g < |KeysOf(reviews)| && KeysOf(reviews)[g] == KeyOf(row);
        assert reviews[g].key == KeyOf(row);
      }
    }
  }

  // ---------- unblinding ----------

  function UnblindDecision(v: Verdict, key: KeyRow): Decision {
    match v
    case Equivalent => Reuse
    case Unclear => Abstain
    case Better(slot) => if key.interventionSlot == slot then Reuse else Repair
  }

  datatype Unblinded = Unblinded(id: nat, trial: string, block: nat, decision: Decision, reason: Text)

  method IndexKeys(keys: seq<KeyRow>) returns (r: Result<map<nat, KeyRow>>)
    ensures r.Ok? <==> forall i, j :: 0 <= i < j < |keys| ==> keys[i].id != keys[j].id
    ensures r.Ok? ==> forall i :: 0 <= i < |keys| ==> keys[i].id in r.value && r.value[keys[i].id] == keys[i]
    ensures r.Ok? ==> forall id :: id in r.value ==> Keyed(id, keys)
  {
    var byId: map<nat, KeyRow> := map[];
    for n := 0 to |keys|
      invariant forall i :: 0 <= i < n ==> keys[i].id in byId && byId[keys[i].id] == keys[i]
      invariant forall k :: k in byId ==> exists i :: 0 <= i < n && keys[i].id == k
      invariant forall i, j :: 0 <= i < j < n ==> keys[i].id != keys[j].id
    {
      if keys[n].id in byId {
        return Err("identity key contains duplicate or invalid review IDs");
      }
      byId := byId[keys[n].id := keys[n]];
    }
    return Ok(byId);
  }

  /** Rows and identity key list the same distinct review IDs, in the same order. */
  predicate Matched(rows: seq<ReviewRow>, keys: seq<KeyRow>) {
    && |keys| == |rows| && (forall i :: 0 <= i < |rows| ==> keys[i].id == rows[i].id)
    && (forall i, j :: 0 <= i < j < |keys| ==> keys[i].id != keys[j].id)
  }

  /** What the join demands: distinct keys, one for each row, and as many as there are rows. */
  predicate Joinable(rows: seq<ReviewRow>, keys: seq<KeyRow>) {
    && |keys| == |rows| && (forall i, j :: 0 <= i < j < |keys| ==> keys[i].id != keys[j].id)
    && (forall i :: 0 <= i < |rows| ==> Keyed(rows[i].id, keys))
  }

  predicate Keyed(id: nat, keys: seq<KeyRow>) {
    exists k :: 0 <= k < |keys| && keys[k].id == id
  }

  lemma MatchedIsJoinable(rows: seq<ReviewRow>, keys: seq<KeyRow>)
    requires Matched(rows, keys)
    ensures Joinable(rows, keys)
  {
    forall i | 0 <= i < |rows| ensures Keyed(rows[i].id, keys) {
      assert keys[i].id == rows[i].id;
    }
  }

  /** The join covers every key exactly when the rows are distinct: a repeated row can stand in for a missing one. */
  lemma JoinCoversKeysIff(rows: seq<ReviewRow>, keys: seq<KeyRow>)
    requires Joinable(rows, keys)
    ensures (forall k :: 0 <= k < |keys| ==> keys[k].id in RowIds(rows)) <==> NoDuplicates(RowIds(rows))
  {
    var known := seq(|keys|, k requires 0 <= k < |keys| => keys[k].id);
    var listed := RowIds(rows);
    DistinctCardinality(listed);
    DistinctCardinality(known);
    assert NoDuplicates(known);
    forall id | id in listed ensures id in known {
      var i :| 0 <= i < |rows| && rows[i].id == id;
      assert Keyed(rows[i].id, keys);
      var k :| 0 <= k < |keys| && keys[k].id == id;
      assert known[k] == id;
    }
    assert Elements(listed) <= Elements(known);
    if NoDuplicates(listed) {
      EqualSize(Elements(listed), Elements(known));
      forall k | 0 <= k < |keys| ensures keys[k].id in listed {
        assert known[k] in Elements(listed);
      }
    }
    if forall k :: 0 <= k < |keys| ==> keys[k].id in listed {
      assert forall k :: 0 <= k < |keys| ==> known[k] in listed;
      assert Elements(known) == Elements(listed);
    }
  }

  lemma EqualSize(a: set<nat>, b: set<nat>)
    requires a <= b && |a| == |b|
    ensures a == b
  {
    assert b == a + (b - a);
  }

  function RowIds(rows: seq<ReviewRow>): seq<nat> {
    seq(|rows|, i requires 0 <= i < |rows| => rows[i].id)
  }

  /** Two reviews of one trial pass for the reviews of two. */
  lemma RepeatHidesTrial(row: ReviewRow, key: KeyRow)
    requires key.id != row.id
    ensures Joinable([row, row], [KeyRow(row.id, "reviewed", 0, A), key]) && key.id !in RowIds([row, row])
  {
    assert [KeyRow(row.id, "reviewed", 0, A), key][0].id == row.id;
  }

  /** A row as its own key decides it. */
  predicate DecidedBy(u: Unblinded, row: ReviewRow, j: Judgement, key: KeyRow) {
    j.verdict.Some? && u == Unblinded(row.id, key.trial, key.block, UnblindDecision(j.verdict.value, key), j.reason)
  }

  /** Joining the judged rows with the identity key by review ID; an unfinished row is an error. */
  method UnblindReview(rows: seq<ReviewRow>, judged: seq<Judgement>, keys: seq<KeyRow>)
    returns (r: Result<seq<Unblinded>>)
    requires |rows| == |judged|
    ensures r.Ok? <==> Joinable(rows, keys) && forall i :: 0 <= i < |judged| ==> judged[i].Complete()
    ensures r.Ok? ==> |r.value| == |rows| == |keys|
    ensures r.Ok? ==> forall i, k :: 0 <= i < |rows| && 0 <= k < |keys| && keys[k].id == rows[i].id ==>
      DecidedBy(r.value[i], rows[i], judged[i], keys[k])
  {
    var byId := IndexKeys(keys);
    if byId.Err? {
      return Err(byId.reason);
    }
    var decisions: seq<Unblinded> := [];
    for n := 0 to |rows|
      invariant |decisions| == n && forall i :: 0 <= i < n ==> Keyed(rows[i].id, keys) && judged[i].Complete()
      invariant forall i, k :: 0 <= i < n && 0 <= k < |keys| && keys[k].id == rows[i].id ==>
        DecidedBy(decisions[i], rows[i], judged[i], keys[k])
    {
      if judged[n].verdict.None? || judged[n].reason == "" {
        return Err("review is incomplete");
      }
      if rows[n].id !in byId.value {
        return Err("review has no identity key");
      }
      var key, verdict := byId.value[rows[n].id], judged[n].verdict.value;
      decisions := decisions +
        [Unblinded(rows[n].id, key.trial, key.block, UnblindDecision(verdict, key), judged[n].reason)];
    }
    if |decisions| != |keys| {
      return Err("review and identity key contain different trials");
    }
    return Ok(decisions);
  }

  // ---------- what the pipeline decides ----------

  /** The decision in terms of the texts alone: reuse if equivalent or the intervention's text was judged better. */
  function ContentDecision(v: Verdict, t: Trial): Decision {
    match v
    case Equivalent => Reuse
    case Unclear => Abstain
    case Better(slot) =>
      var winner := if slot == A then TrialKey(t).lo else TrialKey(t).hi;
      if t.intervention == winner then Reuse else Repair
  }

  /** One trial through blinding, translation and unblinding. */
  function Outcome(v: Verdict, t: Trial, id: nat, referenceIsA: bool): Decision {
    UnblindDecision(Translate(v, BlindRow(t, id, referenceIsA)), IdentityRow(t, id, referenceIsA))
  }

  /** With differing texts the outcome is the content judgement, whatever the coin. */
  lemma OutcomeIsContent(v: Verdict, t: Trial, id: nat, referenceIsA: bool)
    requires t.reference != t.intervention
    ensures Outcome(v, t, id, referenceIsA) == ContentDecision(v, t)
    ensures Outcome(v, t, id, referenceIsA) == Abstain <==> v == Unclear
    ensures Outcome(v, t, id, referenceIsA) == Reuse <==>
      v == Equivalent || v == Better(if Less(t.intervention, t.reference) then A else B)
  {
    LessIsTotal(t.reference, t.intervention);
  }

  /** The coin decides the outcome exactly when equal texts got a one-sided verdict. */
  lemma OutcomeIgnoresCoinIff(v: Verdict, t: Trial, id: nat)
    ensures Outcome(v, t, id, true) == Outcome(v, t, id, false) <==> t.reference != t.intervention || !v.Better?
  {
    LessIsTotal(t.reference, t.intervention);
  }

  /** A trial of equal texts, abstained for an unstable reference, whose decision is the coin. */
  lemma EqualTextsFollowTheCoin()
    ensures var t := Trial("t", 0, "q", "e", "same", "same", Some("other"));
      Outcome(Better(A), t, 1, true) == Repair && Outcome(Better(A), t, 1, false) == Reuse
  {
    var t := Trial("t", 0, "q", "e", "same", "same", Some("other"));
    OutcomeIgnoresCoinIff(Better(A), t, 1);
    NotLessSelf("same");
  }

  /** Every trial belongs to a group that was judged completely. */
  ghost predicate AllJudged(trials: seq<Trial>, judge: GroupKey -> Judgement) {
    forall i :: 0 <= i < |trials| ==> judge(TrialKey(trials[i])).Complete()
  }

  /** A trial's row, identity and judgement: those of its own coin and of its group. */
  ghost predicate Blinded(t: Trial, id: nat, heads: bool, judge: GroupKey -> Judgement, row: ReviewRow, key: KeyRow,
                          j: Judgement) {
    && row == BlindRow(t, id, heads) && key == IdentityRow(t, id, heads)
    && judge(TrialKey(t)).Complete() && j == TranslateFor(judge(TrialKey(t)), row)
  }

  /** Blinding, grouping, judging and applying: it fails exactly when a group of some trial is not judged. */
  method BlindVerdicts(trials: seq<Trial>, coin: string -> bool, judge: GroupKey -> Judgement)
    returns (rows: seq<ReviewRow>, keys: seq<KeyRow>, judged: Result<seq<Judgement>>)
    ensures |rows| == |keys| == |trials| && (judged.Ok? <==> AllJudged(trials, judge))
    ensures forall i :: 0 <= i < |trials| ==> keys[i].id == rows[i].id == i + 1
    ensures judged.Ok? ==> |judged.value| == |trials|
    ensures judged.Ok? ==> forall i :: 0 <= i < |trials| ==>
      Blinded(trials[i], i + 1, coin(trials[i].id), judge, rows[i], keys[i], judged.value[i])
  {
    rows, keys := PrepareReview(trials, coin);
    var groups := CompactReview(rows);
    var reviews := JudgeGroups(groups, judge);
    JudgedGroups(groups, rows, reviews);
    judged := ApplyReview(rows, reviews, |groups|, |rows|);
    FinishedIff(trials, coin, rows, groups, reviews, judge);
    if judged.Ok? {
      forall i | 0 <= i < |trials|
        ensures Blinded(trials[i], i + 1, coin(trials[i].id), judge, rows[i], keys[i], judged.value[i])
      {
        var g := GroupOfTrial(trials, coin, rows, groups, i);
        assert reviews[g].key == KeyOf(rows[i]) && IsLast(reviews, g);
      }
    }
  }

  /** The rows that preparing the trials yields. */
  ghost predicate Prepared(rows: seq<ReviewRow>, trials: seq<Trial>, coin: string -> bool) {
    |rows| == |trials| && forall i :: 0 <= i < |trials| ==> rows[i] == BlindRow(trials[i], i + 1, coin(trials[i].id))
  }

  /** Every trial has a group, under its own key. */
  lemma GroupOfTrial(trials: seq<Trial>, coin: string -> bool, rows: seq<ReviewRow>, groups: seq<Group>, i: nat)
    returns (g: nat)
    requires Prepared(rows, trials, coin) && Grouping(groups, rows) && i < |trials|
    ensures g < |groups| && groups[g].key == KeyOf(rows[i]) == TrialKey(trials[i])
  {
    assert rows[i] in rows;
    g :| 0 <= g < |groups| && groups[g].key == KeyOf(rows[i]);
    RowKey(trials[i], i + 1, coin(trials[i].id));
  }

  /** Every group has a trial: a key without rows would have no IDs. */
  lemma TrialOfGroup(trials: seq<Trial>, coin: string -> bool, rows: seq<ReviewRow>, groups: seq<Group>, g: nat)
    returns (i: nat)
    requires Prepared(rows, trials, coin) && Grouping(groups, rows) && g < |groups|
    ensures i < |trials| && TrialKey(trials[i]) == groups[g].key
  {
    if forall r :: r in rows ==> KeyOf(r) != groups[g].key {
      NoIds(rows, groups[g].key);
      assert false;
    }
    var r :| r in rows && KeyOf(r) == groups[g].key;
    i :| 0 <= i < |rows| && rows[i] == r;
    RowKey(trials[i], i + 1, coin(trials[i].id));
  }

  lemma FinishedIff(trials: seq<Trial>, coin: string -> bool, rows: seq<ReviewRow>, groups: seq<Group>,
                    reviews: seq<Reviewed>, judge: GroupKey -> Judgement)
    requires Prepared(rows, trials, coin) && Grouping(groups, rows) && |reviews| == |groups|
    requires forall g :: 0 <= g < |groups| ==> reviews[g] == Reviewed(groups[g].key, judge(groups[g].key))
    ensures Finished(reviews) <==> AllJudged(trials, judge)
  {
    if Finished(reviews) {
      forall i | 0 <= i < |trials| ensures judge(TrialKey(trials[i])).Complete() {
        var g := GroupOfTrial(trials, coin, rows, groups, i);
        assert reviews[g].judgement.Complete();
      }
    }
    if AllJudged(trials, judge) {
      forall g | 0 <= g < |reviews| ensures reviews[g].judgement.Complete() {
        var i := TrialOfGroup(trials, coin, rows, groups, g);
      }
    }
  }

  lemma RowKey(t: Trial, id: nat, referenceIsA: bool)
    ensures KeyOf(BlindRow(t, id, referenceIsA)) == TrialKey(t)
  {
    KeyIgnoresCoin(t, 0, id);
    KeyIgnoresCoin(t, id, id);
  }

  lemma JudgedGroups(groups: seq<Group>, rows: seq<ReviewRow>, reviews: seq<Reviewed>)
    requires Grouping(groups, rows) && |reviews| == |groups|
    requires forall i :: 0 <= i < |groups| ==> reviews[i].key == groups[i].key
    ensures Covers(reviews, rows) && |Elements(KeysOf(reviews))| == |groups|
    ensures forall g :: 0 <= g < |reviews| ==> IsLast(reviews, g)
  {
    forall row | row in rows ensures exists i :: 0 <= i < |reviews| && reviews[i].key == KeyOf(row) {
      var i :| 0 <= i < |groups| && groups[i].key == KeyOf(row);
      assert reviews[i].key == KeyOf(row);
    }
    DistinctCardinality(KeysOf(reviews));
  }

  /** What the pipeline reports of one trial. */
  ghost predicate ReportsTrial(u: Unblinded, t: Trial, id: nat, heads: bool, j: Judgement) {
    && j.verdict.Some? && u.trial == t.id && u.block == t.block && u.reason == j.reason
    && u.decision == Outcome(j.verdict.value, t, id, heads)
    && (t.reference != t.intervention ==> u.decision == ContentDecision(j.verdict.value, t))
  }

  /**
   The whole pipeline. It fails exactly when the group of some trial was not judged completely; otherwise
   every trial gets a decision, which for differing texts is the content judgement of its group.
   */
  method ReviewPipeline(trials: seq<Trial>, coin: string -> bool, judge: GroupKey -> Judgement)
    returns (r: Result<seq<Unblinded>>)
    ensures r.Ok? <==> AllJudged(trials, judge)
    ensures r.Ok? ==> |r.value| == |trials|
    ensures r.Ok? ==> forall i :: 0 <= i < |trials| ==>
      ReportsTrial(r.value[i], trials[i], i + 1, coin(trials[i].id), judge(TrialKey(trials[i])))
  {
    var rows, keys, judged := BlindVerdicts(trials, coin, judge);
    if judged.Err? {
      return Err(judged.reason);
    }
    MatchedIsJoinable(rows, keys);
    assert forall i :: 0 <= i < |trials| ==>
      Blinded(trials[i], i + 1, coin(trials[i].id), judge, rows[i], keys[i], judged.value[i]);
    r := UnblindReview(rows, judged.value, keys);
    forall i | 0 <= i < |trials|
      ensures ReportsTrial(r.value[i], trials[i], i + 1, coin(trials[i].id), judge(TrialKey(trials[i])))
    {
      assert DecidedBy(r.value[i], rows[i], judged.value[i], keys[i]);
      DecisionIsReported(r.value[i], trials[i], i + 1, coin(trials[i].id), judge, rows[i], keys[i], judged.value[i]);
    }
  }

  lemma DecisionIsReported(u: Unblinded, t: Trial, id: nat, heads: bool, judge: GroupKey -> Judgement,
                           row: ReviewRow, key: KeyRow, j: Judgement)
    requires Blinded(t, id, heads, judge, row, key, j) && DecidedBy(u, row, j, key)
    ensures ReportsTrial(u, t, id, heads, judge(TrialKey(t)))
  {
    if t.reference != t.intervention {
      OutcomeIsContent(judge(TrialKey(t)).verdict.value, t, id, heads);
    }
  }

  /** The reviewer fills in every group. */
  method JudgeGroups(groups: seq<Group>, judge: GroupKey -> Judgement) returns (reviews: seq<Reviewed>)
    ensures |reviews| == |groups|
    ensures forall i :: 0 <= i < |groups| ==> reviews[i] == Reviewed(groups[i].key, judge(groups[i].key))
  {
    reviews := seq(|groups|, i requires 0 <= i < |groups| => Reviewed(groups[i].key, judge(groups[i].key)));
  }
}
