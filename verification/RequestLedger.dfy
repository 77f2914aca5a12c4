/** The append-only request ledger: its recorders, its handles and its validator. */
module RequestLedger {
  import opened Common

  type Id = string

  datatype Kind = Started | Completed | Failed | Unknown

  /** One ledger line; `discovery` says that a start carries the `discovery_source` role. */
  datatype Line = Malformed | Event(id: Id, kind: Kind, discovery: bool)

  type Ledger = seq<Line>

  // ---------- counting lines ----------

  /** What one counts in a ledger. */
  datatype Probe = StartOf(id: Id) | EndOf(id: Id) | AnyStart | AnyCompleted | AnyFailed | Discovery | Bad

  predicate Hit(line: Line, p: Probe) {
    match p
    case StartOf(id) => line.Event? && line.kind == Started && line.id == id
    case EndOf(id) => line.Event? && (line.kind == Completed || line.kind == Failed) && line.id == id
    case AnyStart => line.Event? && line.kind == Started
    case AnyCompleted => line.Event? && line.kind == Completed
    case AnyFailed => line.Event? && line.kind == Failed
    case Discovery => line.Event? && line.kind == Started && line.discovery
    case Bad => line.Malformed? || line.id == "" || line.kind == Unknown
  }

  function Count(lines: Ledger, p: Probe): nat {
    if |lines| == 0 then 0 else Count(lines[..|lines| - 1], p) + if Hit(lines[|lines| - 1], p) then 1 else 0
  }

  lemma CountAppend(lines: Ledger, line: Line, p: Probe)
    ensures Count(lines + [line], p) == Count(lines, p) + if Hit(line, p) then 1 else 0
  {
    assert (lines + [line])[..|lines|] == lines;
  }

  lemma {:induction false} CountConcat(a: Ledger, b: Ledger, p: Probe)
    ensures Count(a + b, p) == Count(a, p) + Count(b, p)
  {
    if |b| == 0 {
      assert a + b == a;
    } else {
      var front, last := b[..|b| - 1], b[|b| - 1];
      CountConcat(a, front, p);
      CountAppend(a + front, last, p);
      assert a + b == a + front + [last];
    }
  }

  lemma CountPrefix(lines: Ledger, k: nat, p: Probe)
    requires k <= |lines|
    ensures Count(lines, p) == Count(lines[..k], p) + Count(lines[k..], p)
  {
    CountConcat(lines[..k], lines[k..], p);
    assert lines == lines[..k] + lines[k..];
  }

  lemma {:induction false} CountPositive(lines: Ledger, p: Probe)
    ensures Count(lines, p) > 0 <==> exists line :: line in lines && Hit(line, p)
  {
    if |lines| == 0 {
    } else {
      var front, last := lines[..|lines| - 1], lines[|lines| - 1];
      CountPositive(front, p);
      assert lines == front + [last];
      assert last in lines;
    }
  }

  // ---------- what the validator accepts ----------

  /** Well-formed lines, at most one start per request, and no terminal event beyond its start. */
  ghost predicate Accepts(lines: Ledger) {
    Count(lines, Bad) == 0 && forall id :: Paired(lines, id)
  }

  predicate Paired(lines: Ledger, id: Id) {
    Count(lines, EndOf(id)) <= Count(lines, StartOf(id)) <= 1
  }

  /** No request is open. */
  ghost predicate Settled(lines: Ledger) {
    forall id :: Closed(lines, id)
  }

  predicate Closed(lines: Ledger, id: Id) {
    Count(lines, EndOf(id)) == Count(lines, StartOf(id))
  }

  function StartedIds(lines: Ledger): set<Id> {
    set line | line in lines && Hit(line, AnyStart) :: line.id
  }

  function EndedIds(lines: Ledger): set<Id> {
    set line | line in lines && (Hit(line, AnyCompleted) || Hit(line, AnyFailed)) :: line.id
  }

  datatype Summary = Summary(started: nat, completed: nat, failed: nat, incomplete: set<Id>) {
    predicate IsComplete() { incomplete == {} }
  }

  function SummaryOf(lines: Ledger): Summary {
    Summary(Count(lines, AnyStart), Count(lines, AnyCompleted), Count(lines, AnyFailed),
            StartedIds(lines) - EndedIds(lines))
  }

  lemma IdsAreCounted(lines: Ledger, id: Id)
    ensures id in StartedIds(lines) <==> Count(lines, StartOf(id)) > 0
    ensures id in EndedIds(lines) <==> Count(lines, EndOf(id)) > 0
  {
    CountPositive(lines, StartOf(id));
    CountPositive(lines, EndOf(id));
    if Count(lines, StartOf(id)) > 0 {
      var line :| line in lines && Hit(line, StartOf(id));
      assert Hit(line, AnyStart);
    }
    if Count(lines, EndOf(id)) > 0 {
      var line :| line in lines && Hit(line, EndOf(id));
      assert Hit(line, AnyCompleted) || Hit(line, AnyFailed);
    }
  }

  // ---------- the counts as positions ----------

  lemma {:induction false} CountWhere(lines: Ledger, p: Probe, hit: Line -> bool)
    requires forall line :: hit(line) <==> Hit(line, p)
    ensures Count(lines, p) == |Where(lines, hit)|
  {
    if |lines| == 0 {
    } else {
      CountWhere(lines[..|lines| - 1], p, hit);
      WhereLast(lines, hit);
    }
  }

  lemma CountIsPositions(lines: Ledger, p: Probe)
    ensures Count(lines, p) == |set k: nat | k < |lines| && Hit(lines[k], p)|
  {
    var hit := (line: Line) => Hit(line, p);
    CountWhere(lines, p, hit);
    assert Where(lines, hit) == set k: nat | k < |lines| && Hit(lines[k], p);
  }

  /** The lines of one kind. */
  ghost function LinesOf(lines: Ledger, kind: Kind): set<nat> {
    set k: nat | k < |lines| && lines[k].Event? && lines[k].kind == kind
  }

  /** The summary counts the lines of each kind; a request is incomplete if it has a start line and no end line. */
  lemma SummaryMeaning(lines: Ledger, s: Summary)
    requires s == SummaryOf(lines)
    ensures s.started == |LinesOf(lines, Started)|
    ensures s.completed == |LinesOf(lines, Completed)| && s.failed == |LinesOf(lines, Failed)|
    ensures forall id :: id in s.incomplete <==>
      && (exists k :: 0 <= k < |lines| && lines[k].Event? && lines[k].kind == Started && lines[k].id == id)
      && forall k :: 0 <= k < |lines| && lines[k].Event? && lines[k].kind in {Completed, Failed} ==> lines[k].id != id
  {
    CountIsPositions(lines, AnyStart);
    CountIsPositions(lines, AnyCompleted);
    CountIsPositions(lines, AnyFailed);
    assert LinesOf(lines, Started) == set k: nat | k < |lines| && Hit(lines[k], AnyStart);
    assert LinesOf(lines, Completed) == set k: nat | k < |lines| && Hit(lines[k], AnyCompleted);
    assert LinesOf(lines, Failed) == set k: nat | k < |lines| && Hit(lines[k], AnyFailed);
    forall k | 0 <= k < |lines| ensures lines[k] in lines {
    }
  }

  /** A line with an ID and one of the three lifecycle events. */
  predicate WellFormed(line: Line) {
    line.Event? && line.id != "" && line.kind in {Started, Completed, Failed}
  }

  predicate IsStart(line: Line) {
    line.Event? && line.kind == Started
  }

  predicate IsEnd(line: Line) {
    line.Event? && line.kind in {Completed, Failed}
  }

  /** No two start lines share an ID, no two end lines do, and every ended request has a start line. */
  ghost predicate Pairs(lines: Ledger) {
    && (forall i, j :: 0 <= i < j < |lines| && IsStart(lines[i]) && IsStart(lines[j]) ==> lines[i].id != lines[j].id)
    && (forall i, j :: 0 <= i < j < |lines| && IsEnd(lines[i]) && IsEnd(lines[j]) ==> lines[i].id != lines[j].id)
    && forall i :: 0 <= i < |lines| && IsEnd(lines[i]) ==>
         exists k :: 0 <= k < |lines| && IsStart(lines[k]) && lines[k].id == lines[i].id
  }

  /** What the counting condition means line by line. */
  lemma AcceptsMeaning(lines: Ledger)
    ensures Accepts(lines) <==> (forall k :: 0 <= k < |lines| ==> WellFormed(lines[k])) && Pairs(lines)
  {
    CountPositive(lines, Bad);
    assert Count(lines, Bad) == 0 <==> forall k :: 0 <= k < |lines| ==> WellFormed(lines[k]) by {
      forall k | 0 <= k < |lines| ensures WellFormed(lines[k]) <==> !Hit(lines[k], Bad) {
      }
      assert forall k :: 0 <= k < |lines| ==> lines[k] in lines;
    }
    if Accepts(lines) {
      AcceptedPairs(lines);
    }
    if Pairs(lines) {
      forall id ensures Paired(lines, id) {
        PairsAreCounted(lines, id);
      }
    }
  }

  lemma AcceptedPairs(lines: Ledger)
    requires Accepts(lines)
    ensures Pairs(lines)
  {
    forall i, j | 0 <= i < j < |lines| && IsStart(lines[i]) && IsStart(lines[j]) ensures lines[i].id != lines[j].id {
      assert Paired(lines, lines[i].id);
      CountOne(lines, StartOf(lines[i].id));
    }
    forall i, j | 0 <= i < j < |lines| && IsEnd(lines[i]) && IsEnd(lines[j]) ensures lines[i].id != lines[j].id {
      assert Paired(lines, lines[i].id);
      CountOne(lines, EndOf(lines[i].id));
    }
    forall i | 0 <= i < |lines| && IsEnd(lines[i])
      ensures exists k :: 0 <= k < |lines| && IsStart(lines[k]) && lines[k].id == lines[i].id
    {
      var id := lines[i].id;
      assert Paired(lines, id) && lines[i] in lines && Hit(lines[i], EndOf(id));
      CountPositive(lines, EndOf(id));
      CountPositive(lines, StartOf(id));
      var line :| line in lines && Hit(line, StartOf(id));
      var k :| 0 <= k < |lines| && lines[k] == line;
      assert IsStart(lines[k]);
    }
  }

  /** A count is at most one exactly when no two positions are hit. */
  lemma CountOne(lines: Ledger, p: Probe)
    ensures Count(lines, p) <= 1 <==> forall i, j :: 0 <= i < j < |lines| ==> !(Hit(lines[i], p) && Hit(lines[j], p))
  {
    var at := set k: nat | k < |lines| && Hit(lines[k], p);
    CountIsPositions(lines, p);
    if |at| <= 1 {
      forall i, j | 0 <= i < j < |lines| ensures !(Hit(lines[i], p) && Hit(lines[j], p)) {
        if i in at && j in at {
          TwoMembers(at, i, j);
          assert false;
        }
      }
    } else {
      var i :| i in at;
      var rest := at - {i};
      assert at == {i} + rest;
      var j :| j in rest;
      assert Hit(lines[i], p) && Hit(lines[j], p);
      assert i < j || j < i;
    }
  }

  lemma TwoMembers(s: set<nat>, i: nat, j: nat)
    requires i in s && j in s && i != j
    ensures |s| >= 2
  {
    assert s == {i, j} + (s - {i, j});
  }

  lemma PairsAreCounted(lines: Ledger, id: Id)
    requires Pairs(lines)
    ensures Paired(lines, id)
  {
    CountOne(lines, StartOf(id));
    CountOne(lines, EndOf(id));
    forall i, j | 0 <= i < j < |lines| ensures !(Hit(lines[i], StartOf(id)) && Hit(lines[j], StartOf(id))) {
      assert Hit(lines[i], StartOf(id)) ==> IsStart(lines[i]);
      assert Hit(lines[j], StartOf(id)) ==> IsStart(lines[j]);
    }
    forall i, j | 0 <= i < j < |lines| ensures !(Hit(lines[i], EndOf(id)) && Hit(lines[j], EndOf(id))) {
      assert Hit(lines[i], EndOf(id)) ==> IsEnd(lines[i]);
      assert Hit(lines[j], EndOf(id)) ==> IsEnd(lines[j]);
    }
    CountPositive(lines, StartOf(id));
    CountPositive(lines, EndOf(id));
    if Count(lines, EndOf(id)) > 0 {
      var line :| line in lines && Hit(line, EndOf(id));
      var i :| 0 <= i < |lines| && lines[i] == line;
      assert IsEnd(lines[i]);
      var k :| 0 <= k < |lines| && IsStart(lines[k]) && lines[k].id == lines[i].id;
      assert lines[k] in lines && Hit(lines[k], StartOf(id));
    }
  }

  // ---------- the validator ----------

  lemma OverCountRejects(lines: Ledger, k: nat, id: Id)
    requires k <= |lines|
    requires Count(lines[..k], Bad) > 0 || Count(lines[..k], StartOf(id)) > 1 || Count(lines[..k], EndOf(id)) > 1
    ensures !Accepts(lines)
  {
    CountPrefix(lines, k, Bad);
    CountPrefix(lines, k, StartOf(id));
    CountPrefix(lines, k, EndOf(id));
    assert Count(lines, Bad) > 0 || !Paired(lines, id);
  }

  /** The two dictionaries after the lines `read`. */
  ghost predicate Tables(read: Ledger, started: map<Id, nat>, terminal: map<Id, (Kind, nat)>) {
    && Count(read, Bad) == 0
    && (forall id :: Entered(read, started, terminal, id))
    && |started| == Count(read, AnyStart)
    && |WithKind(terminal, Completed)| == Count(read, AnyCompleted)
    && |WithKind(terminal, Failed)| == Count(read, AnyFailed)
  }

  predicate Entered(read: Ledger, started: map<Id, nat>, terminal: map<Id, (Kind, nat)>, id: Id) {
    && Count(read, StartOf(id)) == (if id in started then 1 else 0)
    && Count(read, EndOf(id)) == (if id in terminal then 1 else 0)
  }

  function WithKind(terminal: map<Id, (Kind, nat)>, kind: Kind): set<Id> {
    set id | id in terminal && terminal[id].0 == kind
  }

  lemma StartEntered(read: Ledger, started: map<Id, nat>, terminal: map<Id, (Kind, nat)>, line: Line, n: nat)
    requires Tables(read, started, terminal) && line.Event? && line.id != "" && line.kind == Started &&
      line.id !in started
    ensures Tables(read + [line], started[line.id := n], terminal)
  {
    var after, next := read + [line], started[line.id := n];
    CountTotals(read, line);
    forall id ensures Entered(after, next, terminal, id) {
      assert Entered(read, started, terminal, id);
      CountAppend(read, line, StartOf(id));
      CountAppend(read, line, EndOf(id));
    }
    assert next.Keys == started.Keys + {line.id};
  }

  lemma EndEntered(read: Ledger, started: map<Id, nat>, terminal: map<Id, (Kind, nat)>, line: Line, n: nat)
    requires Tables(read, started, terminal) && line.Event? && line.id != "" && line.id !in terminal
    requires line.kind == Completed || line.kind == Failed
    ensures Tables(read + [line], started, terminal[line.id := (line.kind, n)])
  {
    var after, next := read + [line], terminal[line.id := (line.kind, n)];
    CountTotals(read, line);
    forall id ensures Entered(after, started, next, id) {
      assert Entered(read, started, terminal, id);
      CountAppend(read, line, StartOf(id));
      CountAppend(read, line, EndOf(id));
    }
    KindEntered(terminal, line.id, line.kind, n, Completed);
    KindEntered(terminal, line.id, line.kind, n, Failed);
  }

  lemma KindEntered(terminal: map<Id, (Kind, nat)>, id: Id, kind: Kind, n: nat, k: Kind)
    requires id !in terminal
    ensures |WithKind(terminal[id := (kind, n)], k)| == |WithKind(terminal, k)| + if k == kind then 1 else 0
  {
    assert WithKind(terminal[id := (kind, n)], k) == WithKind(terminal, k) + if k == kind then {id} else {};
  }

  lemma CountTotals(read: Ledger, line: Line)
    ensures Count(read + [line], Bad) == Count(read, Bad) + if Hit(line, Bad) then 1 else 0
    ensures Count(read + [line], AnyStart) == Count(read, AnyStart) + if Hit(line, AnyStart) then 1 else 0
    ensures Count(read + [line], AnyCompleted) == Count(read, AnyCompleted) + if Hit(line, AnyCompleted) then 1 else 0
    ensures Count(read + [line], AnyFailed) == Count(read, AnyFailed) + if Hit(line, AnyFailed) then 1 else 0
  {
    CountAppend(read, line, Bad);
    CountAppend(read, line, AnyStart);
    CountAppend(read, line, AnyCompleted);
    CountAppend(read, line, AnyFailed);
  }

  lemma TablesDecide(lines: Ledger, started: map<Id, nat>, terminal: map<Id, (Kind, nat)>)
    requires Tables(lines, started, terminal)
    ensures Accepts(lines) <==> terminal.Keys <= started.Keys
    ensures started.Keys == StartedIds(lines) && terminal.Keys == EndedIds(lines)
  {
    forall id ensures (id in started <==> id in StartedIds(lines)) && (id in terminal <==> id in EndedIds(lines)) {
      assert Entered(lines, started, terminal, id);
      IdsAreCounted(lines, id);
    }
    forall id ensures Paired(lines, id) <==> (id in terminal ==> id in started) {
      assert Entered(lines, started, terminal, id);
    }
    if Accepts(lines) {
      forall id | id in terminal ensures id in started {
        assert Paired(lines, id);
      }
    }
  }

  /** A line the loop raises on: not an event, or a second start or end of its request. */
  predicate Raises(line: Line, started: map<Id, nat>, terminal: map<Id, (Kind, nat)>) {
    || Hit(line, Bad)
    || (line.kind == Started && line.id in started)
    || (line.kind != Started && line.id in terminal)
  }

  lemma RaisingRejects(lines: Ledger, i: nat, started: map<Id, nat>, terminal: map<Id, (Kind, nat)>)
    requires i < |lines| && Tables(lines[..i], started, terminal) && Raises(lines[i], started, terminal)
    ensures !Accepts(lines)
  {
    var read, line := lines[..i], lines[i];
    assert lines[..i + 1] == read + [line];
    var id := if line.Event? then line.id else "";
    assert Entered(read, started, terminal, id);
    CountAppend(read, line, Bad);
    CountAppend(read, line, StartOf(id));
    CountAppend(read, line, EndOf(id));
    OverCountRejects(lines, i + 1, id);
  }

  lemma ReadNext(lines: Ledger, i: nat, started: map<Id, nat>, terminal: map<Id, (Kind, nat)>)
    requires i < |lines| && Tables(lines[..i], started, terminal) && !Raises(lines[i], started, terminal)
    ensures lines[i].kind == Started ==> Tables(lines[..i + 1], started[lines[i].id := i + 1], terminal)
    ensures lines[i].kind != Started ==>
      Tables(lines[..i + 1], started, terminal[lines[i].id := (lines[i].kind, i + 1)])
  {
    assert lines[..i + 1] == lines[..i] + [lines[i]];
    if lines[i].kind == Started {
      StartEntered(lines[..i], started, terminal, lines[i], i + 1);
    } else {
      EndEntered(lines[..i], started, terminal, lines[i], i + 1);
    }
  }

  lemma NothingRead()
    ensures Tables([], map[], map[])
  {
    forall id ensures Entered([], map[], map[], id) {
    }
    assert WithKind(map[], Completed) == {} && WithKind(map[], Failed) == {};
  }

  /** The validator accepts exactly the paired ledgers, and reports their counts and open requests. */
  method ValidateLedger(lines: Ledger) returns (r: Result<Summary>)
    ensures r.Ok? <==> Accepts(lines)
    ensures r.Ok? ==> r.value == SummaryOf(lines)
  {
    var started: map<Id, nat>, terminal: map<Id, (Kind, nat)> := map[], map[];
    NothingRead();
    assert lines[..0] == [];
    for i := 0 to |lines|
      invariant Tables(lines[..i], started, terminal)
    {
      var line := lines[i];
      if Raises(line, started, terminal) {
        RaisingRejects(lines, i, started, terminal);
        return Err("malformed, unknown or duplicate lifecycle event");
      }
      ReadNext(lines, i, started, terminal);
      if line.kind == Started {
        started := started[line.id := i + 1];
      } else {
        terminal := terminal[line.id := (line.kind, i + 1)];
      }
    }
    assert lines[..|lines|] == lines;
    TablesDecide(lines, started, terminal);
    if !(terminal.Keys <= started.Keys) {
      return Err("Terminal events without request_started");
    }
    return Ok(Summary(|started|, |WithKind(terminal, Completed)|, |WithKind(terminal, Failed)|,
                      started.Keys - terminal.Keys));
  }

  // ---------- conservation and order ----------

  lemma {:induction false} EndsAreCompletedOrFailed(lines: Ledger)
    requires Accepts(lines)
    ensures |StartedIds(lines)| == Count(lines, AnyStart)
    ensures |EndedIds(lines)| == Count(lines, AnyCompleted) + Count(lines, AnyFailed)
    ensures EndedIds(lines) <= StartedIds(lines)
  {
    forall id ensures Count(lines, StartOf(id)) <= 1 && Count(lines, EndOf(id)) <= 1 {
      assert Paired(lines, id);
    }
    DistinctStarts(lines);
    DistinctEnds(lines);
    forall id | id in EndedIds(lines) ensures id in StartedIds(lines) {
      IdsAreCounted(lines, id);
      assert Paired(lines, id);
    }
  }

  lemma {:induction false} DistinctStarts(lines: Ledger)
    requires forall id :: Count(lines, StartOf(id)) <= 1
    ensures |StartedIds(lines)| == Count(lines, AnyStart)
  {
    if |lines| == 0 {
    } else {
      var front, last := lines[..|lines| - 1], lines[|lines| - 1];
      assert lines == front + [last];
      forall id ensures Count(front, StartOf(id)) <= 1 {
        assert Count(lines, StartOf(id)) <= 1;
      }
      DistinctStarts(front);
      if Hit(last, AnyStart) {
        assert Count(lines, StartOf(last.id)) <= 1;
        IdsAreCounted(front, last.id);
        assert StartedIds(lines) == StartedIds(front) + {last.id};
      } else {
        assert StartedIds(lines) == StartedIds(front);
      }
    }
  }

  lemma {:induction false} DistinctEnds(lines: Ledger)
    requires forall id :: Count(lines, EndOf(id)) <= 1
    ensures |EndedIds(lines)| == Count(lines, AnyCompleted) + Count(lines, AnyFailed)
  {
    if |lines| == 0 {
    } else {
      var front, last := lines[..|lines| - 1], lines[|lines| - 1];
      assert lines == front + [last];
      forall id ensures Count(front, EndOf(id)) <= 1 {
        assert Count(lines, EndOf(id)) <= 1;
      }
      DistinctEnds(front);
      if Hit(last, AnyCompleted) || Hit(last, AnyFailed) {
        assert Count(lines, EndOf(last.id)) <= 1;
        IdsAreCounted(front, last.id);
        assert EndedIds(lines) == EndedIds(front) + {last.id};
      } else {
        assert EndedIds(lines) == EndedIds(front);
      }
    }
  }

  /** Every started request is completed, failed or incomplete, and only one of them. */
  lemma LedgerBalances(lines: Ledger)
    requires Accepts(lines)
    ensures SummaryOf(lines).started == SummaryOf(lines).completed + SummaryOf(lines).failed +
      |SummaryOf(lines).incomplete|
  {
    EndsAreCompletedOrFailed(lines);
    var s, e := StartedIds(lines), EndedIds(lines);
    assert s == e + (s - e);
  }

  lemma {:induction false} CountIgnoresOrder(a: Ledger, b: Ledger, p: Probe)
    requires multiset(a) == multiset(b)
    ensures Count(a, p) == Count(b, p)
  {
    if |a| == 0 {
      assert |b| == |multiset(b)| == 0;
    } else {
      var front, last := a[..|a| - 1], a[|a| - 1];
      var j := FindLast(a, b);
      RemoveLine(b, j, p);
      CountIgnoresOrder(front, b[..j] + b[j + 1..], p);
    }
  }

  lemma FindLast(a: Ledger, b: Ledger) returns (j: nat)
    requires |a| > 0 && multiset(a) == multiset(b)
    ensures j < |b| && b[j] == a[|a| - 1]
    ensures multiset(a[..|a| - 1]) == multiset(b) - multiset{b[j]}
  {
    var front, last := a[..|a| - 1], a[|a| - 1];
    assert a == front + [last];
    assert last in multiset(b);
    j :| 0 <= j < |b| && b[j] == last;
  }

  lemma RemoveLine(b: Ledger, j: nat, p: Probe)
    requires j < |b|
    ensures multiset(b[..j] + b[j + 1..]) == multiset(b) - multiset{b[j]}
    ensures Count(b, p) == Count(b[..j] + b[j + 1..], p) + if Hit(b[j], p) then 1 else 0
  {
    var x, y := b[..j], b[j + 1..];
    assert b == (x + [b[j]]) + y;
    CountConcat(x, y, p);
    CountAppend(x, b[j], p);
    CountConcat(x + [b[j]], y, p);
  }

  /** Verdict, counts and open requests do not depend on the order of the lines. */
  lemma VerdictIgnoresOrder(a: Ledger, b: Ledger)
    requires multiset(a) == multiset(b)
    ensures Accepts(a) <==> Accepts(b)
    ensures SummaryOf(a) == SummaryOf(b)
  {
    forall p: Probe ensures Count(a, p) == Count(b, p) {
      CountIgnoresOrder(a, b, p);
    }
    forall id ensures Paired(a, id) <==> Paired(b, id) {
    }
    forall line ensures line in a <==> line in b {
      assert line in multiset(a) <==> line in multiset(b);
    }
  }

  // ---------- recorders and handles ----------

  /** The whole recorded world: the shared ledger and every handle with its `_finished` flag. */
  datatype World = World(ledger: Ledger, handles: map<Id, bool>)

  /** Calls any recorder may receive; a start draws an id no handle has. */
  datatype Call = Start(id: Id, discovery: bool) | Finish(id: Id, kind: Kind)

  predicate Possible(w: World, call: Call) {
    match call
    case Start(id, _) => id != "" && id !in w.handles
    case Finish(id, kind) => id in w.handles && (kind == Completed || kind == Failed)
  }

  /** One call; finishing a finished handle raises and leaves everything as it is. */
  function Next(w: World, call: Call): World
    requires Possible(w, call)
  {
    match call
    case Start(id, discovery) => World(w.ledger + [Event(id, Started, discovery)], w.handles[id := false])
    case Finish(id, kind) =>
      if w.handles[id] then w else World(w.ledger + [Event(id, kind, false)], w.handles[id := true])
  }

  /** The world after any interleaving of calls; an impossible call cannot be made. */
  function After(calls: seq<Call>): World {
    if |calls| == 0 then World([], map[])
    else
      var w := After(calls[..|calls| - 1]);
      if Possible(w, calls[|calls| - 1]) then Next(w, calls[|calls| - 1]) else w
  }

  function Open(w: World): set<Id> {
    set id | id in w.handles && !w.handles[id]
  }

  predicate Tracked(w: World, id: Id) {
    && Count(w.ledger, StartOf(id)) == (if id in w.handles then 1 else 0)
    && Count(w.ledger, EndOf(id)) == (if id in w.handles && w.handles[id] then 1 else 0)
  }

  /** What every call keeps. */
  ghost predicate Consistent(w: World) {
    Count(w.ledger, Bad) == 0 && "" !in w.handles && forall id :: Tracked(w, id)
  }

  lemma CallKeepsConsistency(w: World, call: Call)
    requires Consistent(w) && Possible(w, call)
    ensures Consistent(Next(w, call))
  {
    match call
    case Start(id, discovery) => LineKeepsConsistency(w, Event(id, Started, discovery), false);
    case Finish(id, kind) =>
      if !w.handles[id] {
        LineKeepsConsistency(w, Event(id, kind, false), true);
      }
  }

  lemma TrackedNext(w: World, line: Line, flag: bool, id: Id)
    requires Tracked(w, id) && line.Event?
    requires if flag then line.id in w.handles && !w.handles[line.id] && (line.kind == Completed || line.kind == Failed)
             else line.id !in w.handles && line.kind == Started
    ensures Tracked(World(w.ledger + [line], w.handles[line.id := flag]), id)
  {
    CountAppend(w.ledger, line, StartOf(id));
    CountAppend(w.ledger, line, EndOf(id));
  }

  /** Appending a line and setting its handle keep ledger and handles in step. */
  lemma LineKeepsConsistency(w: World, line: Line, flag: bool)
    requires Consistent(w) && line.Event? && line.id != ""
    requires if flag then line.id in w.handles && !w.handles[line.id] && (line.kind == Completed || line.kind == Failed)
             else line.id !in w.handles && line.kind == Started
    ensures Consistent(World(w.ledger + [line], w.handles[line.id := flag]))
  {
    var next := World(w.ledger + [line], w.handles[line.id := flag]);
    CountAppend(w.ledger, line, Bad);
    forall id ensures Tracked(next, id) {
      TrackedNext(w, line, flag, id);
    }
  }

  lemma ConsistentIsAccepted(w: World)
    requires Consistent(w)
    ensures Accepts(w.ledger) && SummaryOf(w.ledger).incomplete == Open(w)
  {
    forall id ensures Paired(w.ledger, id) && (id in SummaryOf(w.ledger).incomplete <==> id in Open(w)) {
      assert Tracked(w, id);
      IdsAreCounted(w.ledger, id);
    }
  }

  /**
   After any interleaving of calls every prefix of the ledger validates and the open ids are the
   unfinished handles.
   */
  lemma {:induction false} EveryRunValidates(calls: seq<Call>)
    ensures Consistent(After(calls))
    ensures forall k :: 0 <= k <= |After(calls).ledger| ==> Accepts(After(calls).ledger[..k])
    ensures SummaryOf(After(calls).ledger).incomplete == Open(After(calls))
  {
    var w := After(calls);
    if |calls| == 0 {
      forall id ensures Tracked(w, id) {
      }
    } else {
      var before, call := After(calls[..|calls| - 1]), calls[|calls| - 1];
      EveryRunValidates(calls[..|calls| - 1]);
      if Possible(before, call) {
        CallKeepsConsistency(before, call);
      }
      forall k | 0 <= k < |w.ledger| ensures Accepts(w.ledger[..k]) {
        assert w.ledger[..k] == before.ledger[..k];
      }
    }
    ConsistentIsAccepted(w);
    assert w.ledger[..|w.ledger|] == w.ledger;
  }

  /** Conversely, a ledger all of whose prefixes validate is the ledger of some run of calls. */
  lemma {:induction false} EveryValidLedgerIsARun(lines: Ledger) returns (calls: seq<Call>)
    requires forall k :: 0 <= k <= |lines| ==> Accepts(lines[..k])
    requires forall line :: line in lines && line.Event? && line.discovery ==> line.kind == Started
    ensures After(calls).ledger == lines
  {
    if |lines| == 0 {
      calls := [];
    } else {
      var front, last := lines[..|lines| - 1], lines[|lines| - 1];
      assert lines == front + [last] && lines[..|lines|] == lines;
      forall k | 0 <= k <= |front| ensures Accepts(front[..k]) {
        assert front[..k] == lines[..k];
      }
      var before := EveryValidLedgerIsARun(front);
      EveryRunValidates(before);
      CountAppend(front, last, Bad);
      assert Paired(lines, last.id) && Tracked(After(before), last.id);
      CountAppend(front, last, StartOf(last.id));
      CountAppend(front, last, EndOf(last.id));
      assert last in lines;
      var call := if last.kind == Started then Start(last.id, last.discovery) else Finish(last.id, last.kind);
      calls := before + [call];
      assert calls[..|calls| - 1] == before;
    }
  }

  // ---------- the recorder's objects ----------

  /** The ledger file that several recorders append to. */
  class LedgerFile {
    var lines: Ledger

    constructor ()
      ensures lines == []
    {
      lines := [];
    }

    method Append(line: Line)
      modifies this
      ensures lines == old(lines) + [line]
    {
      lines := lines + [line];
    }
  }

  class RequestRecorder {
    const file: LedgerFile

    constructor (file: LedgerFile)
      ensures this.file == file
    {
      this.file := file;
    }

    /** Starting writes the input before any work and hands out an unfinished handle. */
    method StartRequest(id: Id, discovery: bool) returns (handle: PendingRequest)
      modifies file
      ensures fresh(handle) && handle.recorder == this && handle.id == id && !handle.finished
      ensures forall w: World :: w.ledger == old(file.lines) && Possible(w, Start(id, discovery)) ==>
        Next(w, Start(id, discovery)) == World(file.lines, w.handles[id := handle.finished])
    {
      file.Append(Event(id, Started, discovery));
      handle := new PendingRequest(this, id);
    }
  }

  class PendingRequest {
    const recorder: RequestRecorder
    const id: Id
    var finished: bool

    constructor (recorder: RequestRecorder, id: Id)
      ensures this.recorder == recorder && this.id == id && !finished
    {
      this.recorder := recorder;
      this.id := id;
      finished := false;
    }

    /** `complete` and `fail`: a call on a handle is exactly one step of the recorded world. */
    method FinishRequest(kind: Kind) returns (r: Result<()>)
      requires kind == Completed || kind == Failed
      modifies this, recorder.file
      ensures r.Err? <==> old(finished)
      ensures finished
      ensures forall w: World ::
        w.ledger == old(recorder.file.lines) && id in w.handles && w.handles[id] == old(finished) ==>
          Next(w, Finish(id, kind)) == World(recorder.file.lines, w.handles[id := finished])
    {
      if finished {
        return Err("Request was already finished");
      }
      finished := true;
      recorder.file.Append(Event(id, kind, false));
      return Ok(());
    }
  }
}
