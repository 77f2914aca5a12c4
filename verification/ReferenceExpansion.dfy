/** Selecting further reference tasks: round-robin over collections, least-used conversation first. */
module ReferenceExpansion {
  import opened Common

  datatype Task = Task(id: string, conversation: string, collection: string)

  type Pool = map<string, seq<Task>>
  type Usage = map<string, nat>

  function Used(usage: Usage, conversation: string): nat {
    if conversation in usage then usage[conversation] else 0
  }

  function Available(pool: Pool, collection: string): seq<Task> {
    if collection in pool then pool[collection] else []
  }

  // ---------- one pick ----------

  /** Earlier in the selection order: less used conversation, then smaller rank. */
  predicate Before(a: Task, b: Task, usage: Usage, rank: string -> nat) {
    Used(usage, a.conversation) < Used(usage, b.conversation)
    || (Used(usage, a.conversation) == Used(usage, b.conversation) && rank(a.id) < rank(b.id))
  }

  /** The position of the first task that no other one precedes. */
  method Choose(available: seq<Task>, usage: Usage, rank: string -> nat) returns (k: nat)
    requires |available| > 0
    ensures k < |available| && forall j :: 0 <= j < |available| ==> !Before(available[j], available[k], usage, rank)
  {
    k := 0;
    for i := 1 to |available|
      invariant k < |available| && forall j :: 0 <= j < i ==> !Before(available[j], available[k], usage, rank)
    {
      if Before(available[i], available[k], usage, rank) {
        k := i;
      }
    }
  }

  function Without(s: seq<Task>, k: nat): (r: seq<Task>)
    requires k < |s|
    ensures |r| == |s| - 1 && multiset(r) == multiset(s) - multiset{s[k]}
    ensures forall t :: t in r ==> t in s
  {
    assert s == s[..k] + [s[k]] + s[k + 1..];
    s[..k] + s[k + 1..]
  }

  /** The whole selection so far. */
  datatype State = State(pool: Pool, usage: Usage, selected: seq<Task>)

  function Pick(s: State, collection: string, k: nat): State
    requires k < |Available(s.pool, collection)|
  {
    var available := Available(s.pool, collection);
    var chosen := available[k];
    State(s.pool[collection := Without(available, k)],
          s.usage[chosen.conversation := Used(s.usage, chosen.conversation) + 1],
          s.selected + [chosen])
  }

  // ---------- nothing is lost or repeated ----------

  /** How often a task is still available, and how many tasks are, over the collections in order. */
  function Held(order: seq<string>, pool: Pool, t: Task): nat {
    if |order| == 0 then 0
    else Held(order[..|order| - 1], pool, t) + multiset(Available(pool, order[|order| - 1]))[t]
  }

  function Size(order: seq<string>, pool: Pool): nat {
    if |order| == 0 then 0 else Size(order[..|order| - 1], pool) + |Available(pool, order[|order| - 1])|
  }

  /** Replacing one collection's tasks exchanges them in the pool. */
  lemma {:induction false} PoolUpdate(order: seq<string>, pool: Pool, i: nat, ts: seq<Task>, t: Task)
    requires NoDuplicates(order) && i < |order|
    ensures Held(order, pool[order[i] := ts], t) + multiset(Available(pool, order[i]))[t] ==
      Held(order, pool, t) + multiset(ts)[t]
    ensures Size(order, pool[order[i] := ts]) + |Available(pool, order[i])| == Size(order, pool) + |ts|
  {
    var n := |order| - 1;
    var c, front := order[i], order[..n];
    if i < n {
      assert front[i] == c && c != order[n];
      assert Available(pool[c := ts], order[n]) == Available(pool, order[n]);
      PoolUpdate(front, pool, i, ts, t);
    } else {
      assert Available(pool[c := ts], order[n]) == ts;
      PoolIgnores(front, pool, c, ts, t);
    }
  }

  lemma {:induction false} PoolIgnores(order: seq<string>, pool: Pool, c: string, ts: seq<Task>, t: Task)
    requires forall j :: 0 <= j < |order| ==> order[j] != c
    ensures Held(order, pool[c := ts], t) == Held(order, pool, t) && Size(order, pool[c := ts]) == Size(order, pool)
  {
    if |order| == 0 {
    } else {
      PoolIgnores(order[..|order| - 1], pool, c, ts, t);
    }
  }

  lemma {:induction false} PoolEmpty(order: seq<string>, pool: Pool)
    requires forall i :: 0 <= i < |order| ==> Available(pool, order[i]) == []
    ensures Size(order, pool) == 0
  {
    if |order| == 0 {
    } else {
      PoolEmpty(order[..|order| - 1], pool);
    }
  }

  /** Every task of the starting pool is selected or still available, as often as before. */
  predicate Kept(order: seq<string>, start: Pool, s: State, t: Task) {
    multiset(s.selected)[t] + Held(order, s.pool, t) == Held(order, start, t)
  }

  ghost predicate Conserves(order: seq<string>, start: Pool, s: State) {
    |s.selected| + Size(order, s.pool) == Size(order, start) && forall t :: Kept(order, start, s, t)
  }

  lemma PickConserves(order: seq<string>, start: Pool, s: State, i: nat, k: nat)
    requires NoDuplicates(order) && i < |order| && k < |Available(s.pool, order[i])| && Conserves(order, start, s)
    ensures Conserves(order, start, Pick(s, order[i], k))
  {
    var available, next := Available(s.pool, order[i]), Pick(s, order[i], k);
    var rest := Without(available, k);
    forall t ensures Kept(order, start, next, t) {
      assert Kept(order, start, s, t);
      PoolUpdate(order, s.pool, i, rest, t);
      assert multiset(rest)[t] == multiset(available)[t] - if t == available[k] then 1 else 0;
      assert multiset(next.selected)[t] == multiset(s.selected)[t] + if t == available[k] then 1 else 0;
    }
    PoolUpdate(order, s.pool, i, rest, available[k]);
  }

  // ---------- balance over collections ----------

  function Taken(selected: seq<Task>, collection: string): nat {
    if |selected| == 0 then 0
    else
      Taken(selected[..|selected| - 1], collection) + if selected[|selected| - 1].collection == collection then 1 else 0
  }

  lemma TakenNext(selected: seq<Task>, t: Task, collection: string)
    ensures Taken(selected + [t], collection) ==
      Taken(selected, collection) + if t.collection == collection then 1 else 0
  {
    assert (selected + [t])[..|selected|] == selected;
  }

  /** The tasks taken of a collection are the selected positions that hold one of it. */
  lemma TakenIsPositions(selected: seq<Task>, collection: string)
    ensures Taken(selected, collection) ==
      |set k: nat | k < |selected| && selected[k].collection == collection|
  {
    var p := (t: Task) => t.collection == collection;
    CountTaken(selected, collection, p);
    assert Where(selected, p) == set k: nat | k < |selected| && selected[k].collection == collection;
  }

  lemma {:induction false} CountTaken(selected: seq<Task>, collection: string, p: Task -> bool)
    requires forall t :: p(t) <==> t.collection == collection
    ensures Taken(selected, collection) == |Where(selected, p)|
  {
    if |selected| == 0 {
    } else {
      CountTaken(selected[..|selected| - 1], collection, p);
      WhereLast(selected, p);
    }
  }


  /** In round `round` with the first `i` collections served: full count if anything is left, else at most that. */
  predicate Served(order: seq<string>, s: State, round: nat, i: nat, k: nat)
    requires k < |order|
  {
    var due := round + if k < i then 1 else 0;
    Taken(s.selected, order[k]) <= due && (Available(s.pool, order[k]) != [] ==> Taken(s.selected, order[k]) == due)
  }

  ghost predicate InRound(order: seq<string>, s: State, round: nat, i: nat) {
    forall k :: 0 <= k < |order| ==> Served(order, s, round, i, k)
  }

  /** Collections differ by more than one task only if the smaller one is exhausted. */
  ghost predicate Balanced(order: seq<string>, s: State) {
    forall a, b :: 0 <= a < |order| && 0 <= b < |order| && Available(s.pool, order[b]) != [] ==>
      Taken(s.selected, order[a]) <= Taken(s.selected, order[b]) + 1
  }

  lemma RoundIsBalanced(order: seq<string>, s: State, round: nat, i: nat)
    requires InRound(order, s, round, i)
    ensures Balanced(order, s)
  {
    forall a, b | 0 <= a < |order| && 0 <= b < |order| && Available(s.pool, order[b]) != []
      ensures Taken(s.selected, order[a]) <= Taken(s.selected, order[b]) + 1
    {
      assert Served(order, s, round, i, a) && Served(order, s, round, i, b);
    }
  }

  // ---------- fairness inside a collection ----------

  /** Every pooled task sits in its own collection. */
  ghost predicate Filed(pool: Pool) {
    forall c, t :: c in pool && t in pool[c] ==> t.collection == c
  }

  /** No conversation spans collections, over selected and available tasks. */
  ghost predicate NoSpan(tasks: set<Task>) {
    forall a, b :: a in tasks && b in tasks && a.conversation == b.conversation ==> a.collection == b.collection
  }

  /** A selected conversation is at most one use ahead of any still available one of its collection. */
  ghost predicate Fair(s: State) {
    forall a, b :: a in s.selected && b in Available(s.pool, a.collection) ==>
      Used(s.usage, a.conversation) <= Used(s.usage, b.conversation) + 1
  }

  lemma PickIsFair(s: State, collection: string, k: nat, rank: string -> nat, tasks: set<Task>)
    requires k < |Available(s.pool, collection)| && Filed(s.pool) && Fair(s)
    requires forall j :: 0 <= j < |Available(s.pool, collection)| ==>
      !Before(Available(s.pool, collection)[j], Available(s.pool, collection)[k], s.usage, rank)
    requires NoSpan(tasks) && (forall t :: t in s.selected ==> t in tasks)
    requires forall c, t :: c in s.pool && t in s.pool[c] ==> t in tasks
    ensures Fair(Pick(s, collection, k))
  {
    var next, available := Pick(s, collection, k), Available(s.pool, collection);
    var chosen := available[k];
    forall a, b | a in next.selected && b in Available(next.pool, a.collection)
      ensures Used(next.usage, a.conversation) <= Used(next.usage, b.conversation) + 1
    {
      assert b in Available(s.pool, a.collection);
      assert a in s.selected || a == chosen;
      assert chosen in available && chosen in tasks && a in tasks;
      if a.conversation == chosen.conversation {
        assert a.collection == collection;
        var j :| 0 <= j < |available| && available[j] == b;
        assert !Before(available[j], available[k], s.usage, rank);
      }
    }
  }

  // ---------- what a selection promises, without any state ----------

  /** How often a conversation was picked. */
  function Picks(selected: seq<Task>, conversation: string): nat {
    if |selected| == 0 then 0
    else
      Picks(selected[..|selected| - 1], conversation)
      + if selected[|selected| - 1].conversation == conversation then 1 else 0
  }

  lemma PicksIsPositions(selected: seq<Task>, conversation: string)
    ensures Picks(selected, conversation) ==
      |set k: nat | k < |selected| && selected[k].conversation == conversation|
  {
    var p := (t: Task) => t.conversation == conversation;
    CountPicks(selected, conversation, p);
    assert Where(selected, p) == set k: nat | k < |selected| && selected[k].conversation == conversation;
  }

  lemma {:induction false} CountPicks(selected: seq<Task>, conversation: string, p: Task -> bool)
    requires forall t :: p(t) <==> t.conversation == conversation
    ensures Picks(selected, conversation) == |Where(selected, p)|
  {
    if |selected| == 0 {
    } else {
      CountPicks(selected[..|selected| - 1], conversation, p);
      WhereLast(selected, p);
    }
  }


  /** Prior uses of a conversation and its picks so far. */
  function Uses(prior: Usage, selected: seq<Task>, conversation: string): nat {
    Used(prior, conversation) + Picks(selected, conversation)
  }

  /** A collection gets two tasks more than another only if nothing is left of the other. */
  ghost predicate BalancedSelection(selected: seq<Task>, tasks: set<Task>) {
    forall a, b :: a in selected && b in tasks && b !in selected ==>
      Taken(selected, a.collection) <= Taken(selected, b.collection) + 1
  }

  /** A picked conversation is at most one use ahead of any that is left of its collection. */
  ghost predicate FairSelection(selected: seq<Task>, tasks: set<Task>, prior: Usage) {
    forall a, b :: a in selected && b in tasks && b !in selected && a.collection == b.collection ==>
      Uses(prior, selected, a.conversation) <= Uses(prior, selected, b.conversation) + 1
  }

  /** Earlier in the selection order after some picks. */
  predicate Precedes(a: Task, b: Task, prior: Usage, selected: seq<Task>, rank: string -> nat) {
    Uses(prior, selected, a.conversation) < Uses(prior, selected, b.conversation)
    || (Uses(prior, selected, a.conversation) == Uses(prior, selected, b.conversation) && rank(a.id) < rank(b.id))
  }

  /** Nothing that is left of its collection precedes the pick. */
  ghost predicate LeastPick(t: Task, selected: seq<Task>, tasks: set<Task>, prior: Usage, rank: string -> nat) {
    forall b :: b in tasks && b !in selected && b.collection == t.collection ==> !Precedes(b, t, prior, selected, rank)
  }

  /** The pick comes from the collection with the fewest picks that has anything left, the first by name on a tie. */
  ghost predicate LeastCollection(t: Task, selected: seq<Task>, tasks: set<Task>) {
    forall b :: b in tasks && b !in selected ==> !CollectionBefore(b.collection, t.collection, selected)
  }

  predicate CollectionBefore(c: string, d: string, selected: seq<Task>) {
    Taken(selected, c) < Taken(selected, d) || (Taken(selected, c) == Taken(selected, d) && Less(c, d))
  }

  /** The state of a selection after `n` picks. */
  ghost predicate OrderlyAt(selected: seq<Task>, n: nat, tasks: set<Task>, prior: Usage, rank: string -> nat)
    requires n <= |selected|
  {
    && BalancedSelection(selected[..n], tasks) && (NoSpan(tasks) ==> FairSelection(selected[..n], tasks, prior))
    && (n < |selected| ==>
          && LeastCollection(selected[n], selected[..n], tasks)
          && LeastPick(selected[n], selected[..n], tasks, prior, rank))
  }

  /**
   After any number of picks the selection is balanced and fair, and the next pick is the least one left of the
   least collection.
   */
  ghost predicate Orderly(selected: seq<Task>, tasks: set<Task>, prior: Usage, rank: string -> nat) {
    forall n: nat :: n <= |selected| ==> OrderlyAt(selected, n, tasks, prior, rank)
  }

  lemma PicksNext(selected: seq<Task>, t: Task, conversation: string)
    ensures Picks(selected + [t], conversation) ==
      Picks(selected, conversation) + if t.conversation == conversation then 1 else 0
  {
    assert (selected + [t])[..|selected|] == selected;
  }

  lemma OrderlyNext(selected: seq<Task>, t: Task, tasks: set<Task>, prior: Usage, rank: string -> nat)
    requires Orderly(selected, tasks, prior, rank) && LeastPick(t, selected, tasks, prior, rank)
    requires LeastCollection(t, selected, tasks)
    requires BalancedSelection(selected + [t], tasks) && (NoSpan(tasks) ==> FairSelection(selected + [t], tasks, prior))
    ensures Orderly(selected + [t], tasks, prior, rank)
  {
    var next := selected + [t];
    forall n: nat | n <= |next| ensures OrderlyAt(next, n, tasks, prior, rank) {
      if n == |next| {
        assert next[..n] == next;
      } else {
        assert OrderlyAt(selected, n, tasks, prior, rank);
        assert next[..n] == selected[..n];
        assert n == |selected| ==> selected[..n] == selected;
      }
    }
  }

  // ---------- the loop ----------

  /** What the loop keeps, relative to the pool and the usage it started from. */
  ghost predicate Keeps(order: seq<string>, start: State, s: State) {
    && Conserves(order, start.pool, s) && Filed(s.pool)
    && forall c :: UsageKept(start.usage, s, c)
  }

  predicate UsageKept(prior: Usage, s: State, conversation: string) {
    Used(s.usage, conversation) == Uses(prior, s.selected, conversation)
  }

  /** A held task is available in one of the listed collections. */
  lemma {:induction false} HeldSomewhere(order: seq<string>, pool: Pool, t: Task) returns (i: nat)
    requires Held(order, pool, t) > 0
    ensures i < |order| && t in Available(pool, order[i])
  {
    var n := |order| - 1;
    if t in Available(pool, order[n]) {
      i := n;
    } else {
      assert multiset(Available(pool, order[n]))[t] == 0;
      i := HeldSomewhere(order[..n], pool, t);
    }
  }

  lemma {:induction false} AvailableIsHeld(order: seq<string>, pool: Pool, i: nat, t: Task)
    requires i < |order| && t in Available(pool, order[i])
    ensures Held(order, pool, t) > 0
  {
    var n := |order| - 1;
    if i < n {
      AvailableIsHeld(order[..n], pool, i, t);
    } else {
      assert t in multiset(Available(pool, order[n]));
    }
  }

  /** The tasks of a pool. */
  ghost function PoolTasks(pool: Pool): set<Task> {
    set c, t | c in pool && t in pool[c] :: t
  }

  /** The collections by name. */
  predicate Ascending(order: seq<string>) {
    forall i, j :: 0 <= i < j < |order| ==> Less(order[i], order[j])
  }

  /** Every collection of the pool has its turn, in the order of the names. */
  predicate Listed(order: seq<string>, pool: Pool) {
    NoDuplicates(order) && Ascending(order) && forall c :: c in pool ==> c in order
  }

  /** A task of the starting pool that was not selected is still available in its own collection. */
  lemma LeftIsAvailable(order: seq<string>, start: State, s: State, b: Task)
    requires Listed(order, start.pool) && Keeps(order, start, s)
    requires b in PoolTasks(start.pool) && b !in s.selected
    ensures b in Available(s.pool, b.collection)
  {
    var c :| c in start.pool && b in start.pool[c];
    var i :| 0 <= i < |order| && order[i] == c;
    AvailableIsHeld(order, start.pool, i, b);
    assert Kept(order, start.pool, s, b);
    var j := HeldSomewhere(order, s.pool, b);
  }

  /** A selected task is one of the starting pool, in a listed collection. */
  lemma SelectedIsListed(order: seq<string>, start: State, s: State, a: Task) returns (i: nat)
    requires Keeps(order, start, s) && Filed(start.pool) && a in s.selected
    ensures i < |order| && order[i] == a.collection
  {
    assert Kept(order, start.pool, s, a);
    assert a in multiset(s.selected);
    i := HeldSomewhere(order, start.pool, a);
  }

  /** Balance and fairness of a state are those of its selection. */
  lemma StateIsOrderly(order: seq<string>, start: State, s: State, tasks: set<Task>)
    requires Listed(order, start.pool) && Filed(start.pool) && Keeps(order, start, s) && Balanced(order, s)
    requires tasks == PoolTasks(start.pool)
    ensures BalancedSelection(s.selected, tasks) && (Fair(s) ==> FairSelection(s.selected, tasks, start.usage))
  {
    forall a, b | a in s.selected && b in tasks && b !in s.selected
      ensures Taken(s.selected, a.collection) <= Taken(s.selected, b.collection) + 1
    {
      var i := SelectedIsListed(order, start, s, a);
      LeftIsAvailable(order, start, s, b);
      assert b.collection in s.pool;
      var j := ListedCollection(order, start, s, b);
    }
    if Fair(s) {
      forall a, b | a in s.selected && b in tasks && b !in s.selected && a.collection == b.collection
        ensures Uses(start.usage, s.selected, a.conversation) <= Uses(start.usage, s.selected, b.conversation) + 1
      {
        LeftIsAvailable(order, start, s, b);
        assert UsageKept(start.usage, s, a.conversation) && UsageKept(start.usage, s, b.conversation);
      }
    }
  }

  lemma ListedCollection(order: seq<string>, start: State, s: State, b: Task) returns (j: nat)
    requires Listed(order, start.pool) && Filed(start.pool) && b in PoolTasks(start.pool)
    ensures j < |order| && order[j] == b.collection
  {
    var c :| c in start.pool && b in start.pool[c];
    j :| 0 <= j < |order| && order[j] == c;
  }

  /** The chosen task of a collection is the least one left of it. */
  lemma ChosenIsLeast(order: seq<string>, start: State, s: State, c: string, k: nat, rank: string -> nat)
    requires Listed(order, start.pool) && Keeps(order, start, s) && k < |Available(s.pool, c)|
    requires forall j :: 0 <= j < |Available(s.pool, c)| ==>
      !Before(Available(s.pool, c)[j], Available(s.pool, c)[k], s.usage, rank)
    ensures LeastPick(Available(s.pool, c)[k], s.selected, PoolTasks(start.pool), start.usage, rank)
  {
    var available := Available(s.pool, c);
    var t := available[k];
    assert t in available && t.collection == c;
    forall b | b in PoolTasks(start.pool) && b !in s.selected && b.collection == t.collection
      ensures !Precedes(b, t, start.usage, s.selected, rank)
    {
      LeftIsAvailable(order, start, s, b);
      var j :| 0 <= j < |available| && available[j] == b;
      assert !Before(available[j], available[k], s.usage, rank);
      assert UsageKept(start.usage, s, b.conversation) && UsageKept(start.usage, s, t.conversation);
    }
  }

  /** In its turn of a round, no collection with anything left has fewer picks, or as many and a smaller name. */
  lemma TurnIsLeast(order: seq<string>, start: State, s: State, i: nat, k: nat, round: nat)
    requires Listed(order, start.pool) && Filed(start.pool) && Keeps(order, start, s) && InRound(order, s, round, i)
    requires i < |order| && k < |Available(s.pool, order[i])|
    ensures LeastCollection(Available(s.pool, order[i])[k], s.selected, PoolTasks(start.pool))
  {
    var t := Available(s.pool, order[i])[k];
    assert t in Available(s.pool, order[i]) && t.collection == order[i];
    forall b | b in PoolTasks(start.pool) && b !in s.selected
      ensures !CollectionBefore(b.collection, t.collection, s.selected)
    {
      LeftIsAvailable(order, start, s, b);
      var j := ListedCollection(order, start, s, b);
      assert Served(order, s, round, i, i) && Served(order, s, round, i, j);
      LessIsTotal(order[i], order[j]);
    }
  }

  lemma PickKeeps(order: seq<string>, start: State, s: State, i: nat, k: nat, round: nat)
    requires NoDuplicates(order) && i < |order| && k < |Available(s.pool, order[i])|
    requires Keeps(order, start, s) && InRound(order, s, round, i)
    ensures Keeps(order, start, Pick(s, order[i], k)) && InRound(order, Pick(s, order[i], k), round, i + 1)
  {
    var next, chosen := Pick(s, order[i], k), Available(s.pool, order[i])[k];
    PickConserves(order, start.pool, s, i, k);
    forall c ensures UsageKept(start.usage, next, c) {
      assert UsageKept(start.usage, s, c) && UsageKept(start.usage, s, chosen.conversation);
      PicksNext(s.selected, chosen, c);
    }
    assert chosen in Available(s.pool, order[i]);
    assert chosen.collection == order[i];
    var after := i + 1;
    forall j | 0 <= j < |order| ensures Served(order, next, round, after, j) {
      assert Served(order, s, round, i, j);
      assert j != i ==> order[j] != order[i];
      TakenNext(s.selected, chosen, order[j]);
    }
  }

  lemma SkipKeeps(order: seq<string>, s: State, i: nat, round: nat)
    requires i < |order| && Available(s.pool, order[i]) == [] && InRound(order, s, round, i)
    ensures InRound(order, s, round, i + 1)
  {
    var after := i + 1;
    forall j | 0 <= j < |order| ensures Served(order, s, round, after, j) {
      assert Served(order, s, round, i, j);
    }
  }

  lemma RoundEnds(order: seq<string>, s: State, round: nat)
    requires InRound(order, s, round, |order|)
    ensures InRound(order, s, round + 1, 0)
  {
    var next := round + 1;
    forall j | 0 <= j < |order| ensures Served(order, s, next, 0, j) {
      assert Served(order, s, round, |order|, j);
    }
  }

  /** Everything selected or still available. */
  ghost function Tasks(s: State): set<Task> {
    (set t | t in s.selected) + PoolTasks(s.pool)
  }

  /** Fairness, as long as no conversation of the given tasks spans collections. */
  ghost predicate Fairly(s: State, tasks: set<Task>) {
    Tasks(s) <= tasks && (NoSpan(tasks) ==> Fair(s))
  }

  lemma PickKeepsFair(s: State, collection: string, k: nat, rank: string -> nat, tasks: set<Task>)
    requires k < |Available(s.pool, collection)| && Filed(s.pool) && Fairly(s, tasks)
    requires forall j :: 0 <= j < |Available(s.pool, collection)| ==>
      !Before(Available(s.pool, collection)[j], Available(s.pool, collection)[k], s.usage, rank)
    ensures Fairly(Pick(s, collection, k), tasks)
  {
    forall t | t in s.selected ensures t in tasks {
      assert t in Tasks(s);
    }
    forall c, t | c in s.pool && t in s.pool[c] ensures t in tasks {
      assert t in Tasks(s);
    }
    if NoSpan(tasks) {
      PickIsFair(s, collection, k, rank, tasks);
    }
    var available := Available(s.pool, collection);
    assert available[k] in available;
    var next := Pick(s, collection, k);
    forall t | t in Tasks(next) ensures t in tasks {
      if t !in next.selected {
        var c :| c in next.pool && t in next.pool[c];
        assert c == collection ==> t in available;
      }
    }
  }

  /** What holds between two picks of round `round`, with the first `i` collections served. */
  ghost predicate Running(order: seq<string>, start: State, s: State, rank: string -> nat, round: nat, i: nat) {
    && Listed(order, start.pool) && Filed(start.pool) && Keeps(order, start, s) && InRound(order, s, round, i)
    && Fairly(s, PoolTasks(start.pool)) && Orderly(s.selected, PoolTasks(start.pool), start.usage, rank)
  }

  /** One pick of the least task keeps all of it. */
  lemma PickKeepsRunning(order: seq<string>, start: State, s: State, i: nat, k: nat, rank: string -> nat, round: nat)
    requires Running(order, start, s, rank, round, i) && i < |order| && k < |Available(s.pool, order[i])|
    requires forall j :: 0 <= j < |Available(s.pool, order[i])| ==>
      !Before(Available(s.pool, order[i])[j], Available(s.pool, order[i])[k], s.usage, rank)
    ensures Running(order, start, Pick(s, order[i], k), rank, round, i + 1)
  {
    var tasks, chosen, next := PoolTasks(start.pool), Available(s.pool, order[i])[k], Pick(s, order[i], k);
    PickKeeps(order, start, s, i, k, round);
    PickKeepsFair(s, order[i], k, rank, tasks);
    ChosenIsLeast(order, start, s, order[i], k, rank);
    TurnIsLeast(order, start, s, i, k, round);
    RoundIsBalanced(order, next, round, i + 1);
    StateIsOrderly(order, start, next, tasks);
    OrderlyNext(s.selected, chosen, tasks, start.usage, rank);
  }

  /** One turn of a collection: take its best task, if it has any. */
  method Serve(order: seq<string>, before: State, i: nat, rank: string -> nat, ghost start: State, ghost round: nat)
    returns (s: State, picked: bool)
    requires i < |order| && Running(order, start, before, rank, round, i)
    ensures Running(order, start, s, rank, round, i + 1)
    ensures picked <==> Available(before.pool, order[i]) != []
    ensures if picked then |s.selected| == |before.selected| + 1 else s == before
  {
    s, picked := before, false;
    var available := Available(s.pool, order[i]);
    if available == [] {
      SkipKeeps(order, s, i, round);
    } else {
      var k := Choose(available, s.usage, rank);
      PickKeepsRunning(order, start, s, i, k, rank, round);
      s, picked := Pick(s, order[i], k), true;
    }
  }

  /** One pass over the collections; stops as soon as enough tasks are selected. */
  method Round(order: seq<string>, before: State, count: nat, rank: string -> nat, ghost start: State, ghost round: nat)
    returns (s: State, progress: bool, ghost served: nat)
    requires Running(order, start, before, rank, round, 0) && |before.selected| < count
    ensures served <= |order| && Running(order, start, s, rank, round, served)
    ensures |before.selected| <= |s.selected| <= count && (served < |order| ==> |s.selected| == count)
    ensures progress <==> |s.selected| > |before.selected|
    ensures !progress ==> s == before && forall i :: 0 <= i < |order| ==> Available(s.pool, order[i]) == []
  {
    s, progress, served := before, false, 0;
    for i := 0 to |order|
      invariant served == i && Running(order, start, s, rank, round, i)
      invariant |before.selected| <= |s.selected| < count
      invariant progress <==> |s.selected| > |before.selected|
      invariant !progress ==> s == before && forall j :: 0 <= j < i ==> Available(s.pool, order[j]) == []
    {
      var picked: bool;
      s, picked := Serve(order, s, i, rank, start, round);
      served := i + 1;
      progress := progress || picked;
      if |s.selected| == count {
        break;
      }
    }
  }

  lemma NothingSelected(order: seq<string>, start: State, rank: string -> nat)
    requires Listed(order, start.pool) && Filed(start.pool) && start.selected == []
    ensures Running(order, start, start, rank, 0, 0)
  {
    forall n: nat | n <= |start.selected|
      ensures OrderlyAt(start.selected, n, PoolTasks(start.pool), start.usage, rank)
    {
    }
    forall k | 0 <= k < |order| ensures Served(order, start, 0, 0, k) {
    }
  }

  /**
   The selection loop. It returns the requested number of tasks of the pool whenever there are that
   many, and after any number of picks the selection is balanced over the collections, fair to the
   conversations, and continued with the least task left of a collection.
   */
  method SelectExpansion(order: seq<string>, pool: Pool, prior: Usage, count: nat, rank: string -> nat)
    returns (r: Result<seq<Task>>)
    requires Listed(order, pool) && Filed(pool)
    ensures r.Ok? <==> count <= Size(order, pool)
    ensures r.Ok? ==> |r.value| == count && forall t :: multiset(r.value)[t] <= Held(order, pool, t)
    ensures r.Ok? ==> Orderly(r.value, PoolTasks(pool), prior, rank)
  {
    var s := State(pool, prior, []);
    ghost var start := s;
    var total := PoolSize(order, pool);
    if total < count {
      return Err("coverage has too few eligible unused tasks");
    }
    NothingSelected(order, start, rank);
    ghost var round: nat, served: nat := 0, 0;
    while |s.selected| < count
      invariant served <= |order| && Running(order, start, s, rank, round, served)
      invariant |s.selected| <= count && (|s.selected| < count ==> served == 0)
      decreases count - |s.selected|
    {
      var progress: bool;
      s, progress, served := Round(order, s, count, rank, start, round);
      if !progress {
        PoolEmpty(order, s.pool);
        assert false;
        return Err("collections cannot satisfy the requested task count");
      }
      if served == |order| {
        RoundEnds(order, s, round);
        round, served := round + 1, 0;
      }
    }
    forall t ensures multiset(s.selected)[t] <= Held(order, pool, t) {
      assert Kept(order, pool, s, t);
    }
    return Ok(s.selected);
  }

  method PoolSize(order: seq<string>, pool: Pool) returns (n: nat)
    ensures n == Size(order, pool)
  {
    n := 0;
    for i := 0 to |order|
      invariant n == Size(order[..i], pool)
    {
      assert order[..i + 1][..i] == order[..i];
      n := n + |Available(pool, order[i])|;
    }
    assert order[..|order|] == order;
  }

  // ---------- eligible tasks ----------

  /** One coverage transition, as far as eligibility looks at it. */
  datatype Row = Row(task: Task, inSplit: bool, testable: nat, promptTokens: int)

  datatype Limits = Limits(excluded: set<string>, maxPromptTokens: int, maxTestableBlocks: int)

  /** Positive bounds and no empty identifier. */
  predicate Bounded(limits: Limits, prior: Usage) {
    limits.maxPromptTokens >= 1 && limits.maxTestableBlocks >= 1 && "" !in limits.excluded && "" !in prior
  }

  predicate Eligible(row: Row, limits: Limits) {
    && row.task.id !in limits.excluded && row.inSplit
    && 0 < row.testable <= limits.maxTestableBlocks && row.promptTokens <= limits.maxPromptTokens
  }

  function EligibleTasks(rows: seq<Row>, limits: Limits): (ts: seq<Task>)
    ensures forall t :: t in ts ==> exists row :: row in rows && row.task == t && Eligible(row, limits)
  {
    if |rows| == 0 then []
    else
      var front, last := EligibleTasks(rows[..|rows| - 1], limits), rows[|rows| - 1];
      assert rows == rows[..|rows| - 1] + [last];
      if Eligible(last, limits) then front + [last.task] else front
  }

  /** Exactly the tasks of the split that are not excluded and keep the bounds, in order; `at` lists their rows. */
  lemma EligiblePositions(rows: seq<Row>, limits: Limits) returns (at: seq<nat>)
    ensures Increasing(at) && forall i: nat :: i in at <==>
      && i < |rows| && rows[i].inSplit && rows[i].task.id !in limits.excluded && rows[i].testable > 0
      && rows[i].testable <= limits.maxTestableBlocks && rows[i].promptTokens <= limits.maxPromptTokens
    ensures |at| == |EligibleTasks(rows, limits)|
    ensures forall k :: 0 <= k < |at| ==> at[k] < |rows| && EligibleTasks(rows, limits)[k] == rows[at[k]].task
  {
    at := EligibleSelected(rows, limits, (row: Row) => Eligible(row, limits));
  }

  lemma {:induction false} EligibleSelected(rows: seq<Row>, limits: Limits, p: Row -> bool) returns (at: seq<nat>)
    requires forall row :: p(row) <==> Eligible(row, limits)
    ensures Selects(at, rows, p) && |at| == |EligibleTasks(rows, limits)|
    ensures forall k :: 0 <= k < |at| ==> at[k] < |rows| && EligibleTasks(rows, limits)[k] == rows[at[k]].task
  {
    if |rows| == 0 {
      at := [];
    } else {
      var n := |rows| - 1;
      var front := EligibleSelected(rows[..n], limits, p);
      SelectsNext(front, rows, p);
      at := front + if p(rows[n]) then [n] else [];
    }
  }

  function EligibleIn(rows: seq<Row>, limits: Limits, collection: string): (ts: seq<Task>)
    ensures forall t :: t in ts ==> t.collection == collection
  {
    if |rows| == 0 then []
    else
      var front, last := EligibleIn(rows[..|rows| - 1], limits, collection), rows[|rows| - 1];
      if Eligible(last, limits) && last.task.collection == collection then front + [last.task] else front
  }

  predicate DistinctIds(ts: seq<Task>) {
    forall i, j :: 0 <= i < j < |ts| ==> ts[i].id != ts[j].id
  }

  /** No identity field is empty. */
  predicate HasIdentity(t: Task) {
    t.id != "" && t.conversation != "" && t.collection != ""
  }

  predicate Identified(ts: seq<Task>) {
    forall i :: 0 <= i < |ts| ==> HasIdentity(ts[i])
  }

  function RowTasks(rows: seq<Row>): seq<Task> {
    seq(|rows|, i requires 0 <= i < |rows| => rows[i].task)
  }

  function Collections(rows: seq<Row>): set<string> {
    set row | row in rows :: row.task.collection
  }

  function Ids(rows: seq<Row>): set<string> {
    set row | row in rows :: row.task.id
  }

  /** The names of all collections, sorted. */
  method SortedCollections(rows: seq<Row>) returns (order: seq<string>)
    ensures Ascending(order) && NoDuplicates(order) && Elements(order) == Collections(rows)
  {
    order := [];
    for n := 0 to |rows|
      invariant Ascending(order) && Elements(order) == Collections(rows[..n])
    {
      var c := rows[n].task.collection;
      assert rows[..n + 1] == rows[..n] + [rows[n]];
      assert Collections(rows[..n + 1]) == Collections(rows[..n]) + {c};
      if c !in order {
        order := InsertName(order, c);
      } else {
        assert c in Elements(order);
      }
    }
    assert rows[..|rows|] == rows;
    AscendingIsDistinct(order);
  }

  lemma AscendingIsDistinct(order: seq<string>)
    requires Ascending(order)
    ensures NoDuplicates(order)
  {
    forall i, j | 0 <= i < j < |order| ensures order[i] != order[j] {
      NotLessSelf(order[i]);
    }
  }

  method InsertName(order: seq<string>, c: string) returns (next: seq<string>)
    requires Ascending(order) && c !in order
    ensures Ascending(next) && Elements(next) == Elements(order) + {c}
  {
    var k := 0;
    while k < |order| && Less(order[k], c)
      invariant k <= |order| && forall i :: 0 <= i < k ==> Less(order[i], c)
    {
      k := k + 1;
    }
    next := order[..k] + [c] + order[k..];
    InsertedElements(order, c, k);
    forall i, j | 0 <= i < j < |next| ensures Less(next[i], next[j]) {
      if i == k {
        LessIsTotal(order[k], c);
        assert j - 1 > k ==> Less(order[k], order[j - 1]);
        if j - 1 > k {
          LessTransitive(c, order[k], order[j - 1]);
        }
      } else if i < k < j {
        LessIsTotal(order[k], c);
        assert Less(order[i], order[j - 1]);
      }
    }
  }

  lemma InsertedElements(order: seq<string>, c: string, k: nat)
    requires k <= |order|
    ensures Elements(order[..k] + [c] + order[k..]) == Elements(order) + {c}
  {
    assert order == order[..k] + order[k..];
    forall x | x in order ensures x in order[..k] || x in order[k..] {
    }
  }

  ghost predicate Groups(pool: Pool, rows: seq<Row>, limits: Limits) {
    forall c :: Available(pool, c) == EligibleIn(rows, limits, c)
  }

  /** Grouping the rows by collection; an empty identity field or a repeated task ID is an error. */
  method GroupCandidates(rows: seq<Row>, limits: Limits) returns (r: Result<Pool>)
    ensures r.Ok? <==> Identified(RowTasks(rows)) && DistinctIds(RowTasks(rows))
    ensures r.Ok? ==> Groups(r.value, rows, limits) && r.value.Keys <= Collections(rows)
  {
    var pool: Pool, seen: set<string> := map[], {};
    for i := 0 to |rows|
      invariant Groups(pool, rows[..i], limits) && seen == Ids(rows[..i]) && DistinctIds(RowTasks(rows[..i]))
      invariant pool.Keys <= Collections(rows) && forall k :: 0 <= k < i ==> HasIdentity(rows[k].task)
    {
      var row := rows[i];
      assert rows[..i + 1] == rows[..i] + [row];
      if row.task.id == "" || row.task.conversation == "" || row.task.collection == "" {
        assert RowTasks(rows)[i] == row.task;
        return Err("coverage transition has invalid identity fields");
      }
      if row.task.id in seen {
        var j :| 0 <= j < i && rows[j].task.id == row.task.id;
        assert RowTasks(rows)[j].id == RowTasks(rows)[i].id;
        return Err("coverage contains a duplicate current task");
      }
      NextRow(pool, rows[..i], row, limits);
      seen := seen + {row.task.id};
      pool := Filing(pool, row, limits);
    }
    assert rows[..|rows|] == rows;
    return Ok(pool);
  }

  /** An eligible row joins the tasks of its collection. */
  function Filing(pool: Pool, row: Row, limits: Limits): Pool {
    if Eligible(row, limits) then pool[row.task.collection := Available(pool, row.task.collection) + [row.task]]
    else pool
  }

  lemma NextRow(pool: Pool, read: seq<Row>, row: Row, limits: Limits)
    requires Groups(pool, read, limits) && DistinctIds(RowTasks(read)) && row.task.id !in Ids(read)
    ensures DistinctIds(RowTasks(read + [row])) && Ids(read + [row]) == Ids(read) + {row.task.id}
    ensures Groups(Filing(pool, row, limits), read + [row], limits)
  {
    var all := read + [row];
    assert all[..|read|] == read;
    var ts, before := RowTasks(all), RowTasks(read);
    forall i, j | 0 <= i < j < |ts| ensures ts[i].id != ts[j].id {
      assert ts[i] == before[i] && read[i] in read;
      assert j < |before| ==> ts[j] == before[j];
    }
    var next := Filing(pool, row, limits);
    forall c ensures Available(next, c) == EligibleIn(all, limits, c) {
      assert Available(pool, c) == EligibleIn(read, limits, c);
    }
  }

  /** The pooled tasks are the eligible ones, as often as they are eligible. */
  lemma PooledAreEligible(order: seq<string>, pool: Pool, rows: seq<Row>, limits: Limits, t: Task)
    requires NoDuplicates(order) && Elements(order) >= Collections(rows) && Groups(pool, rows, limits)
    ensures Held(order, pool, t) == multiset(EligibleTasks(rows, limits))[t]
    ensures Size(order, pool) == |EligibleTasks(rows, limits)|
  {
    PooledIs(order, pool, rows, limits, t);
    GroupedAreEligible(order, rows, limits, t);
  }

  /** The same two counts taken over the rows. */
  function GroupedHeld(order: seq<string>, rows: seq<Row>, limits: Limits, t: Task): nat {
    if |order| == 0 then 0
    else GroupedHeld(order[..|order| - 1], rows, limits, t) + multiset(EligibleIn(rows, limits, order[|order| - 1]))[t]
  }

  function GroupedSize(order: seq<string>, rows: seq<Row>, limits: Limits): nat {
    if |order| == 0 then 0
    else GroupedSize(order[..|order| - 1], rows, limits) + |EligibleIn(rows, limits, order[|order| - 1])|
  }

  lemma {:induction false} PooledIs(order: seq<string>, pool: Pool, rows: seq<Row>, limits: Limits, t: Task)
    requires Groups(pool, rows, limits)
    ensures Held(order, pool, t) == GroupedHeld(order, rows, limits, t) &&
      Size(order, pool) == GroupedSize(order, rows, limits)
  {
    if |order| == 0 {
    } else {
      PooledIs(order[..|order| - 1], pool, rows, limits, t);
    }
  }

  lemma {:induction false} GroupedNext(order: seq<string>, rows: seq<Row>, limits: Limits, t: Task)
    requires NoDuplicates(order) && |rows| > 0
    ensures var last := rows[|rows| - 1];
      var joins := Eligible(last, limits) && last.task.collection in order;
      && GroupedHeld(order, rows, limits, t) ==
           GroupedHeld(order, rows[..|rows| - 1], limits, t) + (if joins && last.task == t then 1 else 0)
      && GroupedSize(order, rows, limits) == GroupedSize(order, rows[..|rows| - 1], limits) + (if joins then 1 else 0)
  {
    if |order| == 0 {
    } else {
      var n := |order| - 1;
      var front, c := order[..n], order[n];
      GroupedNext(front, rows, limits, t);
      EligibleInNext(rows, limits, c, t);
      assert forall x :: x in order <==> x in front || x == c;
      assert c !in front;
    }
  }

  lemma EligibleInNext(rows: seq<Row>, limits: Limits, c: string, t: Task)
    requires |rows| > 0
    ensures var last := rows[|rows| - 1];
      var joins := Eligible(last, limits) && last.task.collection == c;
      var before, after := EligibleIn(rows[..|rows| - 1], limits, c), EligibleIn(rows, limits, c);
      && multiset(after)[t] == multiset(before)[t] + (if joins && last.task == t then 1 else 0)
      && |after| == |before| + (if joins then 1 else 0)
  {
  }

  lemma {:induction false} GroupedAreEligible(order: seq<string>, rows: seq<Row>, limits: Limits, t: Task)
    requires NoDuplicates(order) && Elements(order) >= Collections(rows)
    ensures GroupedHeld(order, rows, limits, t) == multiset(EligibleTasks(rows, limits))[t]
    ensures GroupedSize(order, rows, limits) == |EligibleTasks(rows, limits)|
  {
    if |rows| == 0 {
      NothingGrouped(order, limits, t);
    } else {
      var front, last := rows[..|rows| - 1], rows[|rows| - 1];
      assert rows == front + [last];
      assert last.task.collection in Collections(rows);
      GroupedAreEligible(order, front, limits, t);
      GroupedNext(order, rows, limits, t);
    }
  }

  lemma {:induction false} NothingGrouped(order: seq<string>, limits: Limits, t: Task)
    ensures GroupedHeld(order, [], limits, t) == 0 && GroupedSize(order, [], limits) == 0
  {
    if |order| == 0 {
    } else {
      NothingGrouped(order[..|order| - 1], limits, t);
    }
  }

  // ---------- distinctness ----------

  lemma {:induction false} DistinctCountsOnce(ts: seq<Task>, t: Task)
    requires DistinctIds(ts)
    ensures multiset(ts)[t] <= 1
  {
    if |ts| == 0 {
    } else {
      var n := |ts| - 1;
      assert ts == ts[..n] + [ts[n]];
      DistinctCountsOnce(ts[..n], t);
    }
  }

  lemma RepeatCountsTwice(ts: seq<Task>, i: nat, j: nat)
    requires i < j < |ts| && ts[i] == ts[j]
    ensures multiset(ts)[ts[i]] >= 2
  {
    assert ts == ts[..i] + [ts[i]] + ts[i + 1..];
    assert ts[i + 1..][j - i - 1] == ts[j];
    assert ts[j] in multiset(ts[i + 1..]);
  }

  /** Part of a list with distinct IDs has distinct IDs. */
  lemma PartIsDistinct(part: seq<Task>, all: seq<Task>)
    requires DistinctIds(all) && multiset(part) <= multiset(all)
    ensures DistinctIds(part)
  {
    forall i, j | 0 <= i < j < |part| ensures part[i].id != part[j].id {
      assert part[i] in multiset(all) && part[j] in multiset(all);
      if part[i] == part[j] {
        RepeatCountsTwice(part, i, j);
        DistinctCountsOnce(all, part[i]);
        assert false;
      }
      var a, b :| 0 <= a < |all| && 0 <= b < |all| && all[a] == part[i] && all[b] == part[j];
    }
  }

  lemma {:induction false} EligibleAreDistinct(rows: seq<Row>, limits: Limits)
    requires DistinctIds(RowTasks(rows))
    ensures DistinctIds(EligibleTasks(rows, limits))
  {
    if |rows| == 0 {
    } else {
      var n := |rows| - 1;
      var front := rows[..n];
      assert RowTasks(front) == RowTasks(rows)[..n];
      EligibleAreDistinct(front, limits);
      var ts := EligibleTasks(front, limits);
      forall i | 0 <= i < |ts| ensures ts[i].id != rows[n].task.id {
        assert ts[i] in ts;
        var k :| 0 <= k < n && front[k].task == ts[i];
        assert RowTasks(rows)[k].id != RowTasks(rows)[n].id;
      }
    }
  }

  /**
   The whole selection. It fails exactly on invalid bounds or identities, a duplicate task or too few eligible tasks;
   otherwise it returns exactly the requested number of distinct eligible tasks, in an order that is
   balanced, fair and least-first among the eligible tasks at every point.
   */
  method SelectReferenceExpansion(rows: seq<Row>, limits: Limits, prior: Usage, count: int, rank: string -> nat)
    returns (r: Result<seq<Task>>)
    ensures r.Ok? <==>
      && count >= 1 && Bounded(limits, prior) && Identified(RowTasks(rows)) && DistinctIds(RowTasks(rows))
      && count <= |EligibleTasks(rows, limits)|
    ensures r.Ok? ==>
      |r.value| == count && DistinctIds(r.value) && multiset(r.value) <= multiset(EligibleTasks(rows, limits))
    ensures r.Ok? ==> forall t :: t in r.value ==> t in EligibleTasks(rows, limits) && t.id !in limits.excluded
    ensures r.Ok? ==> Selection(r.value, Elements(EligibleTasks(rows, limits)), prior, rank)
  {
    if count < 1 || limits.maxPromptTokens < 1 || limits.maxTestableBlocks < 1 {
      return Err("expansion selection bounds must be positive integers");
    }
    if "" in limits.excluded {
      return Err("excluded task IDs must not be empty");
    }
    if "" in prior {
      return Err("prior conversation counts are invalid");
    }
    var pool := GroupCandidates(rows, limits);
    if pool.Err? {
      return Err(pool.reason);
    }
    var order := SortedCollections(rows);
    GroupsAreFiled(pool.value, rows, limits);
    PoolHoldsEligible(pool.value, rows, limits);
    ghost var all := EligibleTasks(rows, limits);
    PooledAreEligible(order, pool.value, rows, limits, Task("", "", ""));
    r := SelectExpansion(order, pool.value, prior, count, rank);
    if r.Ok? {
      forall t ensures multiset(r.value)[t] <= multiset(all)[t] {
        PooledAreEligible(order, pool.value, rows, limits, t);
      }
      EligibleAreDistinct(rows, limits);
      PartIsDistinct(r.value, all);
      forall t | t in r.value ensures t in all && t.id !in limits.excluded {
        assert t in multiset(all);
      }
    }
  }

  /** No two of the tasks share a rank. */
  ghost predicate Ranked(tasks: set<Task>, rank: string -> nat) {
    forall a, b :: a in tasks && b in tasks && rank(a.id) == rank(b.id) ==> a == b
  }

  /** Distinct tasks of a set, picked least first. */
  ghost predicate Selection(selected: seq<Task>, tasks: set<Task>, prior: Usage, rank: string -> nat) {
    DistinctIds(selected) && (forall t :: t in selected ==> t in tasks) && Orderly(selected, tasks, prior, rank)
  }

  /** The rules leave no choice: if ranks differ, any two selections of the same tasks agree as far as they go. */
  lemma {:induction false} SelectionIsUnique(x: seq<Task>, y: seq<Task>, tasks: set<Task>, prior: Usage,
                                             rank: string -> nat, n: nat)
    requires Selection(x, tasks, prior, rank) && Selection(y, tasks, prior, rank) && Ranked(tasks, rank)
    requires n <= |x| && n <= |y|
    ensures x[..n] == y[..n]
  {
    if n > 0 {
      var k := n - 1;
      SelectionIsUnique(x, y, tasks, prior, rank, k);
      assert OrderlyAt(x, k, tasks, prior, rank) && OrderlyAt(y, k, tasks, prior, rank);
      NextIsLeft(x, k);
      NextIsLeft(y, k);
      assert x[k] in x && y[k] in y;
      LeastIsUnique(x[k], y[k], x[..k], tasks, prior, rank);
      assert x[..n] == x[..k] + [x[k]] && y[..n] == y[..k] + [y[k]];
    }
  }

  lemma NextIsLeft(x: seq<Task>, k: nat)
    requires DistinctIds(x) && k < |x|
    ensures x[k] !in x[..k]
  {
  }

  lemma LeastIsUnique(a: Task, b: Task, selected: seq<Task>, tasks: set<Task>, prior: Usage, rank: string -> nat)
    requires a in tasks && b in tasks && a !in selected && b !in selected && Ranked(tasks, rank)
    requires LeastCollection(a, selected, tasks) && LeastCollection(b, selected, tasks)
    requires LeastPick(a, selected, tasks, prior, rank) && LeastPick(b, selected, tasks, prior, rank)
    ensures a == b
  {
    assert !CollectionBefore(b.collection, a.collection, selected);
    assert !CollectionBefore(a.collection, b.collection, selected);
    LessIsTotal(a.collection, b.collection);
    assert a.collection == b.collection;
    assert !Precedes(b, a, prior, selected, rank) && !Precedes(a, b, prior, selected, rank);
  }

  lemma GroupsAreFiled(pool: Pool, rows: seq<Row>, limits: Limits)
    requires Groups(pool, rows, limits)
    ensures Filed(pool)
  {
    forall c, t | c in pool && t in pool[c] ensures t.collection == c {
      assert Available(pool, c) == EligibleIn(rows, limits, c);
    }
  }

  /** The tasks of the grouped pool are the eligible ones. */
  lemma {:induction false} PoolHoldsEligible(pool: Pool, rows: seq<Row>, limits: Limits)
    requires Groups(pool, rows, limits)
    ensures PoolTasks(pool) == Elements(EligibleTasks(rows, limits))
  {
    forall t | t in PoolTasks(pool) ensures t in EligibleTasks(rows, limits) {
      var c :| c in pool && t in pool[c];
      assert Available(pool, c) == EligibleIn(rows, limits, c);
      EligibleInIsEligible(rows, limits, c, t);
    }
    forall t | t in EligibleTasks(rows, limits) ensures t in PoolTasks(pool) {
      EligibleIsIn(rows, limits, t);
      assert Available(pool, t.collection) == EligibleIn(rows, limits, t.collection);
    }
  }

  lemma {:induction false} EligibleInIsEligible(rows: seq<Row>, limits: Limits, c: string, t: Task)
    requires t in EligibleIn(rows, limits, c)
    ensures t in EligibleTasks(rows, limits)
  {
    var front := rows[..|rows| - 1];
    if t in EligibleIn(front, limits, c) {
      EligibleInIsEligible(front, limits, c, t);
    }
  }

  lemma {:induction false} EligibleIsIn(rows: seq<Row>, limits: Limits, t: Task)
    requires t in EligibleTasks(rows, limits)
    ensures t in EligibleIn(rows, limits, t.collection)
  {
    var front := rows[..|rows| - 1];
    if t in EligibleTasks(front, limits) {
      EligibleIsIn(front, limits, t);
    }
  }
}
