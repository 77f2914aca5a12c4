/** Context agreement around a candidate block: matching tokens before it and matching block runs. */
module ContextFeatures {
  import opened Arithmetic
  import opened Common
  import opened TokenEdges
  import opened ReuseOpportunity

  // ---------- token-level agreement ----------

  /** Identical tokens right before the two positions. */
  function MatchBefore(previous: Prompt, current: Prompt, p: nat, c: nat): (n: nat)
    requires p <= |previous| && c <= |current|
    ensures n <= p && n <= c
  {
    if p == 0 || c == 0 || previous[p - 1] != current[c - 1] then 0
    else MatchBefore(previous, current, p - 1, c - 1) + 1
  }

  /** Identical tokens from the two positions on. */
  function MatchAfter(previous: Prompt, current: Prompt, p: nat, c: nat): (n: nat)
    requires p <= |previous| && c <= |current|
    ensures p + n <= |previous| && c + n <= |current|
    decreases |previous| - p
  {
    if p == |previous| || c == |current| || previous[p] != current[c] then 0
    else MatchAfter(previous, current, p + 1, c + 1) + 1
  }

  lemma LastTokensAgree(x: Prompt, y: Prompt, i: nat, j: nat, n: nat)
    requires i + n < |x| && j + n < |y|
    ensures x[i..i + n + 1] == y[j..j + n + 1] <==> x[i..i + n] == y[j..j + n] && x[i + n] == y[j + n]
  {
    var a, b := x[i..i + n], y[j..j + n];
    assert x[i..i + n + 1] == a + [x[i + n]] && y[j..j + n + 1] == b + [y[j + n]];
    assert (a + [x[i + n]])[..n] == a && (b + [y[j + n]])[..n] == b;
    assert (a + [x[i + n]])[n] == x[i + n] && (b + [y[j + n]])[n] == y[j + n];
  }

  /** The match is maximal: exactly the stretches up to its length agree. */
  lemma {:induction false} MatchBeforeMeaning(previous: Prompt, current: Prompt, p: nat, c: nat, n: nat)
    requires n <= p <= |previous| && n <= c <= |current|
    ensures n <= MatchBefore(previous, current, p, c) <==> previous[p - n..p] == current[c - n..c]
    decreases n
  {
    if n == 0 {
    } else {
      LastTokensAgree(previous, current, p - n, c - n, n - 1);
      MatchBeforeMeaning(previous, current, p - 1, c - 1, n - 1);
    }
  }

  lemma FirstTokensAgree(x: Prompt, y: Prompt, i: nat, j: nat, n: nat)
    requires 1 <= n && i + n <= |x| && j + n <= |y|
    ensures x[i..i + n] == y[j..j + n] <==> x[i] == y[j] && x[i + 1..i + n] == y[j + 1..j + n]
  {
    var a, b := x[i + 1..i + n], y[j + 1..j + n];
    assert x[i..i + n] == [x[i]] + a && y[j..j + n] == [y[j]] + b;
    assert ([x[i]] + a)[1..] == a && ([y[j]] + b)[1..] == b;
    assert ([x[i]] + a)[0] == x[i] && ([y[j]] + b)[0] == y[j];
  }

  lemma {:induction false} MatchAfterMeaning(previous: Prompt, current: Prompt, p: nat, c: nat, n: nat)
    requires p + n <= |previous| && c + n <= |current|
    ensures n <= MatchAfter(previous, current, p, c) <==> previous[p..p + n] == current[c..c + n]
    decreases n
  {
    if n == 0 {
    } else {
      FirstTokensAgree(previous, current, p, c, n);
      MatchAfterMeaning(previous, current, p + 1, c + 1, n - 1);
    }
  }

  // ---------- block-level runs ----------

  function RunBefore(previous: Prompt, current: Prompt, p: nat, c: nat, blockSize: nat): nat
    requires blockSize >= 1 && p <= |previous| && c <= |current|
  {
    if p < blockSize || c < blockSize || previous[p - blockSize..p] != current[c - blockSize..c] then 0
    else 1 + RunBefore(previous, current, p - blockSize, c - blockSize, blockSize)
  }

  function RunAfter(previous: Prompt, current: Prompt, p: nat, c: nat, blockSize: nat): nat
    requires blockSize >= 1 && p <= |previous| && c <= |current|
    decreases |previous| - p
  {
    if p + blockSize > |previous| || c + blockSize > |current| ||
      previous[p..p + blockSize] != current[c..c + blockSize] then 0
    else 1 + RunAfter(previous, current, p + blockSize, c + blockSize, blockSize)
  }

  lemma {:induction false} MatchBeforeBlock(previous: Prompt, current: Prompt, p: nat, c: nat, n: nat)
    requires p <= |previous| && c <= |current| && n <= MatchBefore(previous, current, p, c)
    ensures MatchBefore(previous, current, p, c) == n + MatchBefore(previous, current, p - n, c - n)
    decreases n
  {
    if n == 0 {
    } else {
      MatchBeforeBlock(previous, current, p - 1, c - 1, n - 1);
    }
  }

  lemma {:induction false} MatchAfterBlock(previous: Prompt, current: Prompt, p: nat, c: nat, n: nat)
    requires p <= |previous| && c <= |current| && n <= MatchAfter(previous, current, p, c)
    ensures MatchAfter(previous, current, p, c) == n + MatchAfter(previous, current, p + n, c + n)
    decreases n
  {
    if n == 0 {
    } else {
      MatchAfterBlock(previous, current, p + 1, c + 1, n - 1);
    }
  }

  lemma QuotientAfterBlock(m: nat, n: nat)
    requires n >= 1
    ensures (n + m) / n == 1 + m / n
    ensures m < n ==> m / n == 0
  {
    assert m == m / n * n + m % n;
    assert (1 + m / n) * n == n + m / n * n;
    DivisionIsUnique(n + m, n, 1 + m / n, m % n);
  }

  /** A preceding block run is the token-level match divided by the block size. */
  lemma {:induction false} RunBeforeIsFloor(previous: Prompt, current: Prompt, p: nat, c: nat, blockSize: nat)
    requires blockSize >= 1 && p <= |previous| && c <= |current|
    ensures RunBefore(previous, current, p, c, blockSize) == MatchBefore(previous, current, p, c) / blockSize
  {
    var m := MatchBefore(previous, current, p, c);
    if p >= blockSize && c >= blockSize {
      MatchBeforeMeaning(previous, current, p, c, blockSize);
    }
    if m >= blockSize {
      MatchBeforeBlock(previous, current, p, c, blockSize);
      RunBeforeIsFloor(previous, current, p - blockSize, c - blockSize, blockSize);
      QuotientAfterBlock(m - blockSize, blockSize);
    } else {
      QuotientAfterBlock(m, blockSize);
    }
  }

  /** ... and so is a following run. */
  lemma {:induction false} RunAfterIsFloor(previous: Prompt, current: Prompt, p: nat, c: nat, blockSize: nat)
    requires blockSize >= 1 && p <= |previous| && c <= |current|
    ensures RunAfter(previous, current, p, c, blockSize) == MatchAfter(previous, current, p, c) / blockSize
    decreases |previous| - p
  {
    var m := MatchAfter(previous, current, p, c);
    if p + blockSize <= |previous| && c + blockSize <= |current| {
      MatchAfterMeaning(previous, current, p, c, blockSize);
    }
    if m >= blockSize {
      MatchAfterBlock(previous, current, p, c, blockSize);
      RunAfterIsFloor(previous, current, p + blockSize, c + blockSize, blockSize);
      QuotientAfterBlock(m - blockSize, blockSize);
    } else {
      QuotientAfterBlock(m, blockSize);
    }
  }

  // ---------- the loops ----------

  method PrecedingMatchTokens(previous: Prompt, current: Prompt, previousStart: nat, currentStart: nat)
    returns (matched: nat)
    requires previousStart <= |previous| && currentStart <= |current|
    ensures matched == MatchBefore(previous, current, previousStart, currentStart)
  {
    matched := 0;
    var limit := Min(previousStart, currentStart);
    while matched < limit && previous[previousStart - matched - 1] == current[currentStart - matched - 1]
      invariant matched <= limit
      invariant MatchBefore(previous, current, previousStart, currentStart)
             == matched + MatchBefore(previous, current, previousStart - matched, currentStart - matched)
    {
      matched := matched + 1;
    }
  }

  /** The loop over blocks before one occurrence counts whole blocks of the token-level match. */
  method PrecedingBlocks(previous: Prompt, current: Prompt, previousStart: nat, currentStart: nat, blockSize: nat)
    returns (preceding: nat)
    requires blockSize >= 1 && previousStart <= |previous| && currentStart <= |current|
    ensures preceding == MatchBefore(previous, current, previousStart, currentStart) / blockSize
  {
    preceding := 0;
    var p: nat, c: nat := previousStart, currentStart;
    while p >= blockSize && c >= blockSize && previous[p - blockSize..p] == current[c - blockSize..c]
      invariant p <= previousStart && c <= currentStart
      invariant RunBefore(previous, current, previousStart, currentStart, blockSize)
             == preceding + RunBefore(previous, current, p, c, blockSize)
      decreases p
    {
      preceding := preceding + 1;
      p, c := p - blockSize, c - blockSize;
    }
    RunBeforeIsFloor(previous, current, previousStart, currentStart, blockSize);
  }

  /** Likewise for the loop over blocks after it. */
  method FollowingBlocks(previous: Prompt, current: Prompt, previousEnd: nat, currentEnd: nat, blockSize: nat)
    returns (following: nat)
    requires blockSize >= 1 && previousEnd <= |previous| && currentEnd <= |current|
    ensures following == MatchAfter(previous, current, previousEnd, currentEnd) / blockSize
  {
    following := 0;
    var p: nat, c: nat := previousEnd, currentEnd;
    while p + blockSize <= |previous| && c + blockSize <= |current| &&
      previous[p..p + blockSize] == current[c..c + blockSize]
      invariant p <= |previous| && c <= |current|
      invariant RunAfter(previous, current, previousEnd, currentEnd, blockSize)
             == following + RunAfter(previous, current, p, c, blockSize)
      decreases |previous| - p
    {
      following := following + 1;
      p, c := p + blockSize, c + blockSize;
    }
    RunAfterIsFloor(previous, current, previousEnd, currentEnd, blockSize);
  }

  method MatchingBlockRun(previous: Prompt, current: Prompt, previousStart: nat, currentStart: nat, blockSize: nat)
    returns (preceding: nat, following: nat)
    requires blockSize >= 1 && previousStart + blockSize <= |previous| && currentStart + blockSize <= |current|
    ensures preceding == MatchBefore(previous, current, previousStart, currentStart) / blockSize
    ensures following == MatchAfter(previous, current, previousStart + blockSize, currentStart + blockSize) / blockSize
  {
    preceding := PrecedingBlocks(previous, current, previousStart, currentStart, blockSize);
    following := FollowingBlocks(previous, current, previousStart + blockSize, currentStart + blockSize, blockSize);
  }

  // ---------- edits before a candidate ----------

  /** One insertion, deletion or replacement. */
  datatype EditSpan = EditSpan(previousStart: nat, previousEnd: nat, currentStart: nat, currentEnd: nat)

  predicate InPrompts(edit: EditSpan, previousCount: nat, currentCount: nat) {
    edit.previousStart <= edit.previousEnd <= previousCount && edit.currentStart <= edit.currentEnd <= currentCount
  }

  /** Equal tokens lie between an edit and the one before. */
  predicate Apart(edits: seq<EditSpan>, i: nat)
    requires 0 < i < |edits|
  {
    edits[i - 1].previousEnd < edits[i].previousStart && edits[i - 1].currentEnd < edits[i].currentStart
  }

  /** What a sequence matcher guarantees: spans inside the prompts, in order, with equal tokens in between. */
  predicate Ordered(edits: seq<EditSpan>, previousCount: nat, currentCount: nat) {
    && (forall i :: 0 <= i < |edits| ==> InPrompts(edits[i], previousCount, currentCount))
    && forall i :: 0 < i < |edits| ==> Apart(edits, i)
  }

  lemma OrderedFront(edits: seq<EditSpan>, n: nat, previousCount: nat, currentCount: nat)
    requires Ordered(edits, previousCount, currentCount) && n <= |edits|
    ensures Ordered(edits[..n], previousCount, currentCount)
  {
    var front := edits[..n];
    forall i | 0 < i < n ensures Apart(front, i) {
      assert Apart(edits, i);
    }
  }

  /** A deletion right at the block boundary still precedes the block. */
  predicate PrecedesBlock(edit: EditSpan, start: nat) {
    edit.currentStart < start || (edit.currentStart == start && edit.currentStart == edit.currentEnd)
  }

  function EditsBefore(edits: seq<EditSpan>, start: nat): seq<EditSpan> {
    if |edits| == 0 then []
    else
      EditsBefore(edits[..|edits| - 1], start)
      + if PrecedesBlock(edits[|edits| - 1], start) then [edits[|edits| - 1]] else []
  }

  function RemovedTokens(edits: seq<EditSpan>): int {
    if |edits| == 0 then 0
    else RemovedTokens(edits[..|edits| - 1]) + edits[|edits| - 1].previousEnd - edits[|edits| - 1].previousStart
  }

  /** Inserted tokens, those past the block start not counted. */
  function InsertedTokens(edits: seq<EditSpan>, start: nat): int {
    if |edits| == 0 then 0
    else
      InsertedTokens(edits[..|edits| - 1], start) +
        Min(edits[|edits| - 1].currentEnd, start) - edits[|edits| - 1].currentStart
  }

  /** The edits before a block are the first ones. */
  lemma {:induction false} EditsBeforeArePrefix(edits: seq<EditSpan>, start: nat, previousCount: nat, currentCount: nat)
    requires Ordered(edits, previousCount, currentCount)
    ensures EditsBefore(edits, start) <= edits
    ensures |edits| > 0 && PrecedesBlock(edits[|edits| - 1], start) ==> EditsBefore(edits, start) == edits
  {
    if |edits| == 0 {
    } else {
      var n := |edits| - 1;
      var front := edits[..n];
      OrderedFront(edits, n, previousCount, currentCount);
      EditsBeforeArePrefix(front, start, previousCount, currentCount);
      assert edits == front + [edits[n]];
      if PrecedesBlock(edits[n], start) {
        assert n > 0 ==> Apart(edits, n) && InPrompts(edits[n - 1], previousCount, currentCount);
        assert EditsBefore(front, start) == front;
      } else {
        assert EditsBefore(edits, start) == EditsBefore(front, start);
      }
    }
  }

  /** Removed tokens fit into the previous prompt, and inserted ones before the block. */
  lemma {:induction false} EditsBeforeFit(edits: seq<EditSpan>, start: nat, previousCount: nat, currentCount: nat)
    requires Ordered(edits, previousCount, currentCount)
    requires forall i :: 0 <= i < |edits| ==> PrecedesBlock(edits[i], start)
    ensures 0 <= RemovedTokens(edits) <= (if edits == [] then 0 else edits[|edits| - 1].previousEnd) <= previousCount
    ensures 0 <= InsertedTokens(edits, start) <= start
    ensures edits != [] ==> InsertedTokens(edits, start) <= Min(edits[|edits| - 1].currentEnd, start)
  {
    if |edits| == 0 {
    } else {
      var n := |edits| - 1;
      OrderedFront(edits, n, previousCount, currentCount);
      EditsBeforeFit(edits[..n], start, previousCount, currentCount);
      assert n > 0 ==> Apart(edits, n);
    }
  }

  lemma {:induction false} AllPrecede(edits: seq<EditSpan>, start: nat, k: nat)
    requires k < |EditsBefore(edits, start)|
    ensures PrecedesBlock(EditsBefore(edits, start)[k], start)
  {
    if k < |EditsBefore(edits[..|edits| - 1], start)| {
      AllPrecede(edits[..|edits| - 1], start, k);
    }
  }

  /** The counted edits: a prefix of all edits, with token counts inside the two prompts. */
  lemma {:induction false} CountedEdits(edits: seq<EditSpan>, start: nat, previousCount: nat, currentCount: nat)
    requires Ordered(edits, previousCount, currentCount)
    ensures var before := EditsBefore(edits, start);
      && before <= edits && 0 <= RemovedTokens(before) <= previousCount && 0 <= InsertedTokens(before, start) <= start
  {
    var before := EditsBefore(edits, start);
    EditsBeforeArePrefix(edits, start, previousCount, currentCount);
    forall k | 0 <= k < |before| ensures PrecedesBlock(before[k], start) {
      AllPrecede(edits, start, k);
    }
    OrderedFront(edits, |before|, previousCount, currentCount);
    assert edits[..|before|] == before;
    EditsBeforeFit(before, start, previousCount, currentCount);
  }

  // ---------- the edits before a block as positions ----------

  lemma {:induction false} OrderedApart(edits: seq<EditSpan>, previousCount: nat, currentCount: nat, i: nat, j: nat)
    requires Ordered(edits, previousCount, currentCount) && i < j < |edits|
    ensures edits[i].previousEnd <= edits[j].previousStart && edits[i].currentEnd <= edits[j].currentStart
    decreases j
  {
    assert Apart(edits, j);
    if i < j - 1 {
      OrderedApart(edits, previousCount, currentCount, i, j - 1);
      assert InPrompts(edits[j - 1], previousCount, currentCount);
    }
  }

  /** A position of the current prompt that some edit inserted. */
  ghost predicate Inserts(edits: seq<EditSpan>, t: nat) {
    exists i :: 0 <= i < |edits| && edits[i].currentStart <= t < edits[i].currentEnd
  }

  /** A position of the previous prompt removed by an edit that starts before the block, or deletes right at it. */
  ghost predicate RemovesBefore(edits: seq<EditSpan>, start: nat, t: nat) {
    exists i :: 0 <= i < |edits| && edits[i].previousStart <= t < edits[i].previousEnd &&
      (edits[i].currentStart < start || (edits[i].currentStart == start == edits[i].currentEnd))
  }

  /** The edits before a block are the first ones, as many as start before it or delete right at it. */
  lemma {:induction false} EditsBeforeCount(edits: seq<EditSpan>, start: nat)
    ensures |EditsBefore(edits, start)| == |set i: nat | i < |edits| &&
      (edits[i].currentStart < start || (edits[i].currentStart == start == edits[i].currentEnd))|
  {
    var p := (e: EditSpan) => e.currentStart < start || (e.currentStart == start == e.currentEnd);
    CountBefore(edits, start, p);
    assert Where(edits, p) == set i: nat | i < |edits| &&
      (edits[i].currentStart < start || (edits[i].currentStart == start == edits[i].currentEnd));
  }

  lemma {:induction false} CountBefore(edits: seq<EditSpan>, start: nat, p: EditSpan -> bool)
    requires forall e :: p(e) <==> e.currentStart < start || (e.currentStart == start == e.currentEnd)
    ensures |EditsBefore(edits, start)| == |Where(edits, p)|
  {
    if |edits| == 0 {
    } else {
      CountBefore(edits[..|edits| - 1], start, p);
      WhereLast(edits, p);
    }
  }

  lemma {:induction false} RemovedIsWidth(edits: seq<EditSpan>, lo: seq<nat>, hi: seq<nat>)
    requires |lo| == |hi| == |edits|
    requires forall i :: 0 <= i < |edits| ==> lo[i] == edits[i].previousStart && hi[i] == edits[i].previousEnd
    ensures RemovedTokens(edits) == Width(lo, hi)
  {
    if |edits| == 0 {
    } else {
      var n := |edits| - 1;
      RemovedIsWidth(edits[..n], lo[..n], hi[..n]);
    }
  }

  lemma {:induction false} InsertedIsWidth(edits: seq<EditSpan>, start: nat, lo: seq<nat>, hi: seq<nat>)
    requires |lo| == |hi| == |edits|
    requires forall i :: 0 <= i < |edits| ==>
      lo[i] == edits[i].currentStart && hi[i] == Min(edits[i].currentEnd, start)
    ensures InsertedTokens(edits, start) == Width(lo, hi)
  {
    if |edits| == 0 {
    } else {
      var n := |edits| - 1;
      InsertedIsWidth(edits[..n], start, lo[..n], hi[..n]);
    }
  }

  /** Exactly the edits of the prefix precede the block. */
  lemma {:induction false} PrefixPrecedes(edits: seq<EditSpan>, start: nat, previousCount: nat, currentCount: nat,
                                          i: nat)
    requires Ordered(edits, previousCount, currentCount) && i < |edits|
    ensures |EditsBefore(edits, start)| <= |edits|
    ensures i < |EditsBefore(edits, start)| ==> EditsBefore(edits, start)[i] == edits[i]
    ensures i < |EditsBefore(edits, start)| <==> PrecedesBlock(edits[i], start)
  {
    var n := |edits| - 1;
    EditsBeforeArePrefix(edits, start, previousCount, currentCount);
    OrderedFront(edits, n, previousCount, currentCount);
    if i < n {
      PrefixPrecedes(edits[..n], start, previousCount, currentCount, i);
    } else if n > 0 {
      EditsBeforeArePrefix(edits[..n], start, previousCount, currentCount);
    }
  }

  /** Inserted tokens before a block are the inserted positions before its start. */
  lemma InsertedArePositions(edits: seq<EditSpan>, start: nat, previousCount: nat, currentCount: nat)
    requires Ordered(edits, previousCount, currentCount)
    ensures InsertedTokens(EditsBefore(edits, start), start) == |set t: nat | t < start && Inserts(edits, t)|
  {
    var before := EditsBefore(edits, start);
    var lo := seq(|before|, i requires 0 <= i < |before| => before[i].currentStart);
    var hi := seq(|before|, i requires 0 <= i < |before| => Min(before[i].currentEnd, start));
    var all := set t: nat | t < start && Inserts(edits, t);
    InsertedIsWidth(before, start, lo, hi);
    BeforeInOrder(edits, start, previousCount, currentCount, before);
    forall t: nat ensures t in all <==> Within(lo, hi, t) {
      InsertedWithin(edits, start, previousCount, currentCount, lo, hi, t);
    }
    WidthIsPositions(lo, hi, all);
  }

  /** Removed tokens before a block are the positions that the edits before it removed. */
  lemma RemovedArePositions(edits: seq<EditSpan>, start: nat, previousCount: nat, currentCount: nat)
    requires Ordered(edits, previousCount, currentCount)
    ensures RemovedTokens(EditsBefore(edits, start)) ==
      |set t: nat | t < previousCount && RemovesBefore(edits, start, t)|
  {
    var before := EditsBefore(edits, start);
    var lo := seq(|before|, i requires 0 <= i < |before| => before[i].previousStart);
    var hi := seq(|before|, i requires 0 <= i < |before| => before[i].previousEnd);
    var all := set t: nat | t < previousCount && RemovesBefore(edits, start, t);
    RemovedIsWidth(before, lo, hi);
    BeforeInOrder(edits, start, previousCount, currentCount, before);
    forall t: nat ensures t in all <==> Within(lo, hi, t) {
      RemovedWithin(edits, start, previousCount, currentCount, lo, hi, t);
    }
    WidthIsPositions(lo, hi, all);
  }

  lemma BeforeInOrder(edits: seq<EditSpan>, start: nat, previousCount: nat, currentCount: nat, before: seq<EditSpan>)
    requires Ordered(edits, previousCount, currentCount) && before == EditsBefore(edits, start)
    ensures forall i :: 0 <= i < |before| ==>
      InPrompts(before[i], previousCount, currentCount) && before[i].currentStart <= start
    ensures forall i, j :: 0 <= i < j < |before| ==>
      before[i].previousEnd <= before[j].previousStart && before[i].currentEnd <= before[j].currentStart
  {
    EditsBeforeArePrefix(edits, start, previousCount, currentCount);
    forall i | 0 <= i < |before|
      ensures InPrompts(before[i], previousCount, currentCount) && before[i].currentStart <= start
    {
      PrefixPrecedes(edits, start, previousCount, currentCount, i);
    }
    forall i, j | 0 <= i < j < |before|
      ensures before[i].previousEnd <= before[j].previousStart && before[i].currentEnd <= before[j].currentStart
    {
      PrefixPrecedes(edits, start, previousCount, currentCount, i);
      PrefixPrecedes(edits, start, previousCount, currentCount, j);
      OrderedApart(edits, previousCount, currentCount, i, j);
    }
  }

  lemma InsertedWithin(edits: seq<EditSpan>, start: nat, previousCount: nat, currentCount: nat, lo: seq<nat>,
                       hi: seq<nat>, t: nat)
    requires Ordered(edits, previousCount, currentCount)
    requires var before := EditsBefore(edits, start);
      && |lo| == |hi| == |before|
      && forall i :: 0 <= i < |before| ==>
           lo[i] == before[i].currentStart && hi[i] == Min(before[i].currentEnd, start)
    ensures t < start && Inserts(edits, t) <==> Within(lo, hi, t)
  {
    if t < start && Inserts(edits, t) {
      var i :| 0 <= i < |edits| && edits[i].currentStart <= t < edits[i].currentEnd;
      PrefixPrecedes(edits, start, previousCount, currentCount, i);
      assert lo[i] <= t < hi[i];
    }
    if Within(lo, hi, t) {
      var i :| 0 <= i < |lo| && lo[i] <= t < hi[i];
      FewerEditsBefore(edits, start);
      PrefixPrecedes(edits, start, previousCount, currentCount, i);
      assert edits[i].currentStart <= t < edits[i].currentEnd;
    }
  }

  lemma RemovedWithin(edits: seq<EditSpan>, start: nat, previousCount: nat, currentCount: nat, lo: seq<nat>,
                      hi: seq<nat>, t: nat)
    requires Ordered(edits, previousCount, currentCount)
    requires var before := EditsBefore(edits, start);
      && |lo| == |hi| == |before|
      && forall i :: 0 <= i < |before| ==> lo[i] == before[i].previousStart && hi[i] == before[i].previousEnd
    ensures t < previousCount && RemovesBefore(edits, start, t) <==> Within(lo, hi, t)
  {
    if RemovesBefore(edits, start, t) {
      var i :| 0 <= i < |edits| && edits[i].previousStart <= t < edits[i].previousEnd &&
        (edits[i].currentStart < start || (edits[i].currentStart == start == edits[i].currentEnd));
      PrefixPrecedes(edits, start, previousCount, currentCount, i);
      assert lo[i] <= t < hi[i];
    }
    if Within(lo, hi, t) {
      var i :| 0 <= i < |lo| && lo[i] <= t < hi[i];
      FewerEditsBefore(edits, start);
      PrefixPrecedes(edits, start, previousCount, currentCount, i);
      assert InPrompts(edits[i], previousCount, currentCount);
      assert edits[i].previousStart <= t < edits[i].previousEnd;
    }
  }

  // ---------- one candidate ----------

  datatype ContextRow = ContextRow(
    editCount: nat, editsBefore: nat, removedBefore: int, insertedBefore: int,
    contextMatch: nat, precedingRun: nat, followingRun: nat, runLength: nat, occurrences: nat, alignedOccurrences: nat)

  /** The runs of the occurrence at `p`. */
  function RunAt(previous: Prompt, current: Prompt, p: nat, c: nat, blockSize: nat): (nat, nat)
    requires blockSize >= 1 && p + blockSize <= |previous| && c + blockSize <= |current|
  {
    (MatchBefore(previous, current, p, c) / blockSize,
     MatchAfter(previous, current, p + blockSize, c + blockSize) / blockSize)
  }

  /** Every listed start has room for a block on both sides of the comparison. */
  predicate Placed(starts: seq<nat>, start: nat, previous: Prompt, current: Prompt, blockSize: nat) {
    start + blockSize <= |current| && forall k :: 0 <= k < |starts| ==> starts[k] + blockSize <= |previous|
  }

  /** The longest match before any of the starts. */
  ghost predicate LongestMatch(best: nat, previous: Prompt, current: Prompt, starts: seq<nat>, start: nat,
                               blockSize: nat)
    requires Placed(starts, start, previous, current, blockSize)
  {
    && (forall k :: 0 <= k < |starts| ==> MatchBefore(previous, current, starts[k], start) <= best)
    && exists k :: 0 <= k < |starts| && best == MatchBefore(previous, current, starts[k], start)
  }

  /** The key that ranks runs: total length, then preceding length. */
  predicate Exceeds(a: (nat, nat), b: (nat, nat)) {
    a.0 + a.1 > b.0 + b.1 || (a.0 + a.1 == b.0 + b.1 && a.0 > b.0)
  }

  /** The highest-ranked run at any of the starts: the longest in total, then the one with most blocks before. */
  ghost predicate HighestRun(best: (nat, nat), previous: Prompt, current: Prompt, starts: seq<nat>, start: nat,
                             blockSize: nat)
    requires blockSize >= 1 && Placed(starts, start, previous, current, blockSize)
  {
    && (forall k :: 0 <= k < |starts| ==> !Exceeds(RunAt(previous, current, starts[k], start, blockSize), best))
    && exists k :: 0 <= k < |starts| && best == RunAt(previous, current, starts[k], start, blockSize)
  }

  method BestContextMatch(previous: Prompt, current: Prompt, starts: seq<nat>, start: nat, blockSize: nat)
    returns (best: nat)
    requires starts != [] && Placed(starts, start, previous, current, blockSize)
    ensures LongestMatch(best, previous, current, starts, start, blockSize)
  {
    best := PrecedingMatchTokens(previous, current, starts[0], start);
    for i := 1 to |starts|
      invariant forall k :: 0 <= k < i ==> MatchBefore(previous, current, starts[k], start) <= best
      invariant exists k :: 0 <= k < i && best == MatchBefore(previous, current, starts[k], start)
    {
      var n := PrecedingMatchTokens(previous, current, starts[i], start);
      if n > best {
        best := n;
      }
    }
  }

  method BestRun(previous: Prompt, current: Prompt, starts: seq<nat>, start: nat, blockSize: nat)
    returns (best: (nat, nat))
    requires blockSize >= 1 && starts != [] && Placed(starts, start, previous, current, blockSize)
    ensures HighestRun(best, previous, current, starts, start, blockSize)
  {
    var pre, post := MatchingBlockRun(previous, current, starts[0], start, blockSize);
    best := (pre, post);
    for i := 1 to |starts|
      invariant forall k :: 0 <= k < i ==> !Exceeds(RunAt(previous, current, starts[k], start, blockSize), best)
      invariant exists k :: 0 <= k < i && best == RunAt(previous, current, starts[k], start, blockSize)
    {
      pre, post := MatchingBlockRun(previous, current, starts[i], start, blockSize);
      if pre + post > best.0 + best.1 || (pre + post == best.0 + best.1 && pre > best.0) {
        best := (pre, post);
      }
    }
  }

  /** Runs are compared at the aligned occurrences when there are any. */
  function Sources(c: Candidate): seq<nat> {
    if c.HasWholeSource() then c.alignedStarts else c.previousStarts
  }

  /** What any analysis guarantees about its candidates, given the token counts of its prompts. */
  predicate Rooted(c: Candidate, previousCount: nat, currentCount: nat, blockSize: nat) {
    && blockSize >= 1 && c.previousStarts != [] && c.start + blockSize <= currentCount
    && (forall k :: 0 <= k < |c.previousStarts| ==> c.previousStarts[k] + blockSize <= previousCount)
    && (forall p :: p in c.alignedStarts ==> p in c.previousStarts) && |c.alignedStarts| <= |c.previousStarts|
  }

  /** What a context row says about its candidate. */
  ghost predicate Describes(f: ContextRow, c: Candidate, previous: Prompt, current: Prompt, blockSize: nat,
                            edits: seq<EditSpan>)
    requires Rooted(c, |previous|, |current|, blockSize)
  {
    RootedIsPlaced(c, previous, current, blockSize);
    && LongestMatch(f.contextMatch, previous, current, c.previousStarts, c.start, blockSize)
    && (c.alignedStarts != [] ==>
          HighestRun((f.precedingRun, f.followingRun), previous, current, c.alignedStarts, c.start, blockSize))
    && (c.alignedStarts == [] ==>
          HighestRun((f.precedingRun, f.followingRun), previous, current, c.previousStarts, c.start, blockSize))
    && f.contextMatch >= blockSize * f.precedingRun && f.runLength == f.precedingRun + 1 + f.followingRun
    && f.occurrences == |c.previousStarts| && f.alignedOccurrences == |c.alignedStarts| <= f.occurrences
    && f.editCount == |edits| && f.editsBefore == |EditsBefore(edits, c.start)| <= f.editCount
    && f.removedBefore == RemovedTokens(EditsBefore(edits, c.start))
    && f.insertedBefore == InsertedTokens(EditsBefore(edits, c.start), c.start)
  }

  lemma RootedIsPlaced(c: Candidate, previous: Prompt, current: Prompt, blockSize: nat)
    requires Rooted(c, |previous|, |current|, blockSize)
    ensures Placed(c.previousStarts, c.start, previous, current, blockSize) &&
      Placed(Sources(c), c.start, previous, current, blockSize)
  {
    forall k | 0 <= k < |Sources(c)| ensures Sources(c)[k] + blockSize <= |previous| {
      assert Sources(c)[k] in Sources(c);
      var i :| 0 <= i < |c.previousStarts| && c.previousStarts[i] == Sources(c)[k];
    }
  }

  lemma {:induction false} FewerEditsBefore(edits: seq<EditSpan>, start: nat)
    ensures |EditsBefore(edits, start)| <= |edits|
  {
    if |edits| == 0 {
    } else {
      FewerEditsBefore(edits[..|edits| - 1], start);
    }
  }

  /**
   The context row of a candidate. The match is maximised over all occurrences and the run over the
   aligned ones when there are any, yet the match always covers the preceding run.
   */
  method ContextOf(previous: Prompt, current: Prompt, c: Candidate, blockSize: nat, edits: seq<EditSpan>)
    returns (f: ContextRow)
    requires Rooted(c, |previous|, |current|, blockSize)
    ensures Describes(f, c, previous, current, blockSize, edits)
  {
    RootedIsPlaced(c, previous, current, blockSize);
    FewerEditsBefore(edits, c.start);
    var before := EditsBefore(edits, c.start);
    var contextMatch := BestContextMatch(previous, current, c.previousStarts, c.start, blockSize);
    var run := BestRun(previous, current, Sources(c), c.start, blockSize);
    MatchCoversRun(previous, current, c, blockSize, contextMatch, run);
    f := ContextRow(|edits|, |before|, RemovedTokens(before), InsertedTokens(before, c.start),
                    contextMatch, run.0, run.1, run.0 + 1 + run.1, |c.previousStarts|, |c.alignedStarts|);
  }

  /** One row per candidate; an opportunity of other prompts is refused if its token counts differ. */
  method ExtractContextFeatures(previous: Prompt, current: Prompt, o: Opportunity, edits: seq<EditSpan>)
    returns (r: Result<seq<ContextRow>>)
    requires forall k :: 0 <= k < |o.candidates| ==>
      Rooted(o.candidates[k], o.previousCount, o.currentCount, o.blockSize)
    ensures r.Err? <==> o.previousCount != |previous| || o.currentCount != |current|
    ensures r.Ok? ==> |r.value| == |o.candidates|
    ensures r.Ok? ==> forall k :: 0 <= k < |o.candidates| ==>
      Describes(r.value[k], o.candidates[k], previous, current, o.blockSize, edits)
  {
    if o.previousCount != |previous| {
      return Err("previous token count does not match reuse opportunity");
    }
    if o.currentCount != |current| {
      return Err("current token count does not match reuse opportunity");
    }
    var rows: seq<ContextRow> := [];
    for k := 0 to |o.candidates|
      invariant |rows| == k
      invariant forall j :: 0 <= j < k ==> Describes(rows[j], o.candidates[j], previous, current, o.blockSize, edits)
    {
      var row := ContextOf(previous, current, o.candidates[k], o.blockSize, edits);
      rows := rows + [row];
    }
    return Ok(rows);
  }

  /** The two maxima range over different starts, but a source is always one of the occurrences. */
  lemma MatchCoversRun(previous: Prompt, current: Prompt, c: Candidate, blockSize: nat, matched: nat, run: (nat, nat))
    requires Rooted(c, |previous|, |current|, blockSize)
    requires Placed(c.previousStarts, c.start, previous, current, blockSize) &&
      Placed(Sources(c), c.start, previous, current, blockSize)
    requires LongestMatch(matched, previous, current, c.previousStarts, c.start, blockSize)
    requires HighestRun(run, previous, current, Sources(c), c.start, blockSize)
    ensures matched >= blockSize * run.0
  {
    var k :| 0 <= k < |Sources(c)| && run == RunAt(previous, current, Sources(c)[k], c.start, blockSize);
    assert Sources(c)[k] in Sources(c);
    var i :| 0 <= i < |c.previousStarts| && c.previousStarts[i] == Sources(c)[k];
    FloorIsCovered(MatchBefore(previous, current, c.previousStarts[i], c.start), matched, blockSize);
  }

  /** Candidates of an analysis are rooted. */
  lemma WitnessIsRooted(c: Candidate, previous: Prompt, current: Prompt, blockSize: nat)
    requires blockSize >= 1 && Witnesses(c, previous, current, blockSize)
    ensures Rooted(c, |previous|, |current|, blockSize)
  {
    forall k | 0 <= k < |c.previousStarts| ensures c.previousStarts[k] + blockSize <= |previous| {
      assert c.previousStarts[k] in c.previousStarts;
    }
    DistinctCardinality(c.alignedStarts);
    DistinctCardinality(c.previousStarts);
    assert Elements(c.alignedStarts) <= Elements(c.previousStarts);
    assert Elements(c.previousStarts) == Elements(c.alignedStarts) +
      (Elements(c.previousStarts) - Elements(c.alignedStarts));
  }

  /** So the extraction accepts the result of every analysis. */
  lemma AnalysisIsRooted(o: Opportunity, previous: Prompt, current: Prompt)
    requires o.blockSize >= 1 && o.previousCount == |previous| && o.currentCount == |current|
    requires o.candidates == AllCandidates(previous, current, o.native, o.blockSize)
    ensures forall k :: 0 <= k < |o.candidates| ==>
      Rooted(o.candidates[k], o.previousCount, o.currentCount, o.blockSize)
  {
    IndexAgreesWithScan(previous, current, o.native, o.blockSize);
    forall k | 0 <= k < |o.candidates| ensures Rooted(o.candidates[k], o.previousCount, o.currentCount, o.blockSize) {
      assert o.candidates[k] in o.candidates;
      WitnessIsRooted(o.candidates[k], previous, current, o.blockSize);
    }
  }

  lemma FloorIsCovered(matched: nat, best: nat, blockSize: nat)
    requires blockSize >= 1 && matched <= best
    ensures best >= blockSize * (matched / blockSize)
  {
    QuotientBounds(matched, blockSize);
  }
}
