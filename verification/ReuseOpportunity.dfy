/** Content-identical blocks beyond the native prefix hit, found through an index of token windows. */
module ReuseOpportunity {
  import opened Arithmetic
  import opened Common
  import opened TokenEdges

  // ---------- the naive scan ----------

  predicate OccursAt(tokens: Prompt, block: Prompt, i: nat) {
    i + |block| <= |tokens| && tokens[i..i + |block|] == block
  }

  /** Every position before `n` at which the block occurs, in order. */
  function Starts(tokens: Prompt, block: Prompt, n: nat): (r: seq<nat>)
    ensures forall i: nat :: i in r <==> i < n && OccursAt(tokens, block, i)
    ensures Increasing(r)
  {
    if n == 0 then []
    else
      var front := Starts(tokens, block, n - 1);
      assert forall a :: 0 <= a < |front| ==> front[a] in front;
      if OccursAt(tokens, block, n - 1) then front + [n - 1] else front
  }

  function Occurrences(tokens: Prompt, block: Prompt): seq<nat> {
    Starts(tokens, block, |tokens|)
  }

  lemma {:induction false} NoLateStarts(tokens: Prompt, block: Prompt, n: nat, m: nat)
    requires |tokens| < n + |block| && n <= m
    ensures Starts(tokens, block, m) == Starts(tokens, block, n)
  {
    if n < m {
      NoLateStarts(tokens, block, n, m - 1);
    }
  }

  // ---------- the window index ----------

  type Index = map<Prompt, seq<nat>>

  /** What the index must hold for one window: all its starts before `n`, or nothing. */
  predicate IndexedTo(index: Index, tokens: Prompt, width: nat, n: nat, block: Prompt) {
    if |block| == width && Starts(tokens, block, n) != [] then
      block in index && index[block] == Starts(tokens, block, n)
    else block !in index
  }

  ghost predicate Indexes(index: Index, tokens: Prompt, width: nat, n: nat) {
    forall block :: IndexedTo(index, tokens, width, n, block)
  }

  lemma IndexNext(index: Index, tokens: Prompt, width: nat, n: nat)
    requires Indexes(index, tokens, width, n) && n + width <= |tokens|
    ensures var block := tokens[n..n + width];
      Indexes(index[block := (if block in index then index[block] else []) + [n]], tokens, width, n + 1)
  {
    var block := tokens[n..n + width];
    var next := index[block := (if block in index then index[block] else []) + [n]];
    var after := n + 1;
    forall b ensures IndexedTo(next, tokens, width, after, b) {
      assert IndexedTo(index, tokens, width, n, b);
      if |b| == width {
        assert OccursAt(tokens, b, n) <==> b == block;
      }
    }
  }

  /** One pass over all windows fills the index that the naive scan defines. */
  method ContentOccurrences(tokens: Prompt, width: nat) returns (index: Index)
    requires width >= 1
    ensures Indexes(index, tokens, width, |tokens|)
  {
    index := map[];
    var stop := if |tokens| < width then 0 else |tokens| - width + 1;
    for start := 0 to stop
      invariant Indexes(index, tokens, width, start)
    {
      IndexNext(index, tokens, width, start);
      var block := tokens[start..start + width];
      index := index[block := (if block in index then index[block] else []) + [start]];
    }
    forall block ensures IndexedTo(index, tokens, width, |tokens|, block) {
      assert IndexedTo(index, tokens, width, stop, block);
      if |block| == width {
        NoLateStarts(tokens, block, stop, |tokens|);
      }
    }
  }

  // ---------- candidates ----------

  datatype Candidate = Candidate(blockIndex: nat, start: nat, previousStarts: seq<nat>, alignedStarts: seq<nat>,
                                 samePosition: bool) {
    predicate HasWholeSource() { alignedStarts != [] }
    predicate Moved() { !samePosition }
    predicate RequiresRepacking() { !HasWholeSource() }
  }

  /** The starts that lie on block boundaries, in the same order. */
  function Aligned(starts: seq<nat>, blockSize: nat): (r: seq<nat>)
    requires blockSize >= 1
    ensures forall i: nat :: i in r <==> i in starts && i % blockSize == 0
  {
    if |starts| == 0 then []
    else
      var front, last := Aligned(starts[..|starts| - 1], blockSize), starts[|starts| - 1];
      assert starts == starts[..|starts| - 1] + [last];
      if last % blockSize == 0 then front + [last] else front
  }

  lemma {:induction false} AlignedIncreases(starts: seq<nat>, blockSize: nat)
    requires blockSize >= 1 && Increasing(starts)
    ensures Increasing(Aligned(starts, blockSize))
  {
    if |starts| == 0 {
    } else {
      var rest := starts[..|starts| - 1];
      AlignedIncreases(rest, blockSize);
      var front := Aligned(rest, blockSize);
      assert forall a :: 0 <= a < |front| ==> front[a] in front && front[a] in rest;
      assert forall x :: x in rest ==> x < starts[|starts| - 1];
    }
  }

  /** The tokens of full block `i`. */
  function BlockTokens(tokens: Prompt, blockSize: nat, i: nat): (b: Prompt)
    requires i * blockSize + blockSize <= |tokens|
    ensures |b| == blockSize
  {
    tokens[i * blockSize..i * blockSize + blockSize]
  }

  /** Block `i` as a candidate, if its content occurs in the previous prompt. */
  function CandidateAt(previous: Prompt, current: Prompt, blockSize: nat, i: nat): (r: Option<Candidate>)
    requires blockSize >= 1 && i * blockSize + blockSize <= |current|
    ensures r.Some? ==> r.value.blockIndex == i
  {
    var starts := Occurrences(previous, BlockTokens(current, blockSize, i));
    if starts == [] then None
    else Some(Candidate(i, i * blockSize, starts, Aligned(starts, blockSize), i * blockSize in starts))
  }

  /** What a candidate says: block `i` occurs, at exactly these starts, of which these are aligned. */
  ghost predicate Witnesses(c: Candidate, previous: Prompt, current: Prompt, blockSize: nat)
    requires blockSize >= 1
  {
    && c.start == c.blockIndex * blockSize && c.start + blockSize <= |current|
    && c.previousStarts != [] && Increasing(c.previousStarts) && Increasing(c.alignedStarts)
    && (forall p: nat :: p in c.previousStarts <==> OccursAt(previous, current[c.start..c.start + blockSize], p))
    && (forall p: nat :: p in c.alignedStarts <==> p in c.previousStarts && p % blockSize == 0)
    && (c.samePosition <==> OccursAt(previous, current[c.start..c.start + blockSize], c.start))
  }

  lemma CandidateMeaning(previous: Prompt, current: Prompt, blockSize: nat, i: nat)
    requires blockSize >= 1 && i * blockSize + blockSize <= |current|
    ensures CandidateAt(previous, current, blockSize, i).Some? <==>
      exists p: nat :: OccursAt(previous, BlockTokens(current, blockSize, i), p)
    ensures CandidateAt(previous, current, blockSize, i).Some? ==>
      Witnesses(CandidateAt(previous, current, blockSize, i).value, previous, current, blockSize)
  {
    var block := BlockTokens(current, blockSize, i);
    var starts := Occurrences(previous, block);
    forall p: nat | OccursAt(previous, block, p) ensures p in starts {
      assert p < |previous|;
    }
    if starts != [] {
      assert starts[0] in starts;
      AlignedIncreases(starts, blockSize);
    }
  }

  /** The candidates among the full blocks `lo` up to `hi`, in order. */
  function Candidates(previous: Prompt, current: Prompt, blockSize: nat, lo: nat, hi: nat): (r: seq<Candidate>)
    requires blockSize >= 1 && lo <= hi && (lo < hi ==> hi <= |current| / blockSize)
    ensures |r| <= hi - lo
    decreases hi
  {
    if lo == hi then []
    else
      BlockFits(|current|, blockSize, hi - 1);
      var front := Candidates(previous, current, blockSize, lo, hi - 1);
      match CandidateAt(previous, current, blockSize, hi - 1)
      case None => front
      case Some(c) => front + [c]
  }

  /** The first full block past the native hit, and the end of the full blocks. */
  function FirstRecomputed(native: nat, blockSize: nat): nat
    requires blockSize >= 1
  {
    (native + blockSize - 1) / blockSize
  }

  function RecomputedEnd(native: nat, blockSize: nat, tokens: nat): (n: nat)
    requires blockSize >= 1
    ensures FirstRecomputed(native, blockSize) <= n
  {
    if tokens / blockSize < FirstRecomputed(native, blockSize) then FirstRecomputed(native, blockSize)
    else tokens / blockSize
  }

  function AllCandidates(previous: Prompt, current: Prompt, native: nat, blockSize: nat): seq<Candidate>
    requires blockSize >= 1
  {
    Candidates(previous, current, blockSize, FirstRecomputed(native, blockSize),
               RecomputedEnd(native, blockSize, |current|))
  }

  /** A candidate is listed exactly when its block is in range and yields it. */
  lemma {:induction false} CandidatesAreExact(previous: Prompt, current: Prompt, blockSize: nat, lo: nat, hi: nat,
                                              c: Candidate)
    requires blockSize >= 1 && lo <= hi && (lo < hi ==> hi <= |current| / blockSize)
    ensures c in Candidates(previous, current, blockSize, lo, hi) <==>
      && lo <= c.blockIndex < hi
      && c.blockIndex * blockSize + blockSize <= |current|
      && CandidateAt(previous, current, blockSize, c.blockIndex) == Some(c)
    decreases hi
  {
    if lo < hi {
      BlockFits(|current|, blockSize, hi - 1);
      CandidatesAreExact(previous, current, blockSize, lo, hi - 1, c);
    }
  }

  lemma {:induction false} CandidatesIncrease(previous: Prompt, current: Prompt, blockSize: nat, lo: nat, hi: nat,
                                              a: nat, b: nat)
    requires blockSize >= 1 && lo <= hi && (lo < hi ==> hi <= |current| / blockSize)
    requires a < b < |Candidates(previous, current, blockSize, lo, hi)|
    ensures Candidates(previous, current, blockSize, lo, hi)[a].blockIndex
          < Candidates(previous, current, blockSize, lo, hi)[b].blockIndex
    decreases hi
  {
    BlockFits(|current|, blockSize, hi - 1);
    var front := Candidates(previous, current, blockSize, lo, hi - 1);
    if b < |front| {
      CandidatesIncrease(previous, current, blockSize, lo, hi - 1, a, b);
    } else {
      assert front[a] in front;
      CandidatesAreExact(previous, current, blockSize, lo, hi - 1, front[a]);
    }
  }

  /**
   The index-based candidates in the naive terms: block `i` is listed exactly when it is a full block
   at or past the rounded-up native hit whose tokens occur somewhere in the previous prompt, and
   whatever is listed carries all occurrence starts in order.
   */
  lemma IndexAgreesWithScan(previous: Prompt, current: Prompt, native: nat, blockSize: nat)
    requires blockSize >= 1
    ensures forall c :: c in AllCandidates(previous, current, native, blockSize) ==>
      Witnesses(c, previous, current, blockSize) && native <= c.start
    ensures forall i: nat ::
      (exists c :: c in AllCandidates(previous, current, native, blockSize) && c.blockIndex == i) <==>
      (native <= i * blockSize && i * blockSize + blockSize <= |current| &&
       exists p: nat :: OccursAt(previous, BlockTokens(current, blockSize, i), p))
  {
    var lo, hi := FirstRecomputed(native, blockSize), RecomputedEnd(native, blockSize, |current|);
    var all := AllCandidates(previous, current, native, blockSize);
    forall c | c in all ensures Witnesses(c, previous, current, blockSize) && native <= c.start {
      CandidatesAreExact(previous, current, blockSize, lo, hi, c);
      CandidateMeaning(previous, current, blockSize, c.blockIndex);
      BlockPastHit(native, blockSize, c.blockIndex);
    }
    forall i: nat ensures (exists c :: c in all && c.blockIndex == i) <==>
      (native <= i * blockSize && i * blockSize + blockSize <= |current| &&
       exists p: nat :: OccursAt(previous, BlockTokens(current, blockSize, i), p))
    {
      BlockPastHit(native, blockSize, i);
      if exists c :: c in all && c.blockIndex == i {
        var c :| c in all && c.blockIndex == i;
        CandidatesAreExact(previous, current, blockSize, lo, hi, c);
        CandidateMeaning(previous, current, blockSize, i);
      }
      if native <= i * blockSize && i * blockSize + blockSize <= |current| &&
         exists p: nat :: OccursAt(previous, BlockTokens(current, blockSize, i), p) {
        var p: nat :| OccursAt(previous, BlockTokens(current, blockSize, i), p);
        var c := CandidateIsListed(previous, current, native, blockSize, i, p);
      }
    }
  }

  lemma BlockPastHit(native: nat, blockSize: nat, i: nat)
    requires blockSize >= 1
    ensures FirstRecomputed(native, blockSize) <= i <==> native <= i * blockSize
  {
    var lo := FirstRecomputed(native, blockSize);
    QuotientBounds(native + blockSize - 1, blockSize);
    MultiplesOrdered(i, lo, blockSize);
    MultiplesOrdered(lo, i, blockSize);
  }

  lemma CandidateIsListed(previous: Prompt, current: Prompt, native: nat, blockSize: nat, i: nat, p: nat)
    returns (c: Candidate)
    requires blockSize >= 1 && native <= i * blockSize && i * blockSize + blockSize <= |current|
    requires OccursAt(previous, BlockTokens(current, blockSize, i), p)
    ensures c in AllCandidates(previous, current, native, blockSize) && c.blockIndex == i
    ensures p in c.previousStarts && (p % blockSize == 0 ==> c.HasWholeSource())
  {
    CandidateMeaning(previous, current, blockSize, i);
    c := CandidateAt(previous, current, blockSize, i).value;
    BlockPastHit(native, blockSize, i);
    BlockFits(|current|, blockSize, i);
    CandidatesAreExact(previous, current, blockSize,
                       FirstRecomputed(native, blockSize), RecomputedEnd(native, blockSize, |current|), c);
  }

  /** The scan over current blocks, looking each one up in the index. */
  method CollectCandidates(previous: Prompt, current: Prompt, native: nat, blockSize: nat)
    returns (candidates: seq<Candidate>)
    requires blockSize >= 1
    ensures candidates == AllCandidates(previous, current, native, blockSize)
  {
    var index := ContentOccurrences(previous, blockSize);
    var first, end := FirstRecomputed(native, blockSize), |current| / blockSize;
    var i := first;
    candidates := [];
    while i < end
      invariant first <= i && (first < i ==> i <= end)
      invariant candidates == Candidates(previous, current, blockSize, first, i)
    {
      ScanStep(index, previous, current, blockSize, first, i);
      candidates := candidates + Found(index, current, blockSize, i);
      i := i + 1;
    }
  }

  /** The record of one current block, if the index holds it. */
  function Found(index: Index, current: Prompt, blockSize: nat, i: nat): seq<Candidate>
    requires blockSize >= 1 && i * blockSize + blockSize <= |current|
  {
    var start := i * blockSize;
    var block := current[start..start + blockSize];
    if block !in index then []
    else
      var starts := index[block];
      [Candidate(start / blockSize, start, starts, Aligned(starts, blockSize), start in starts)]
  }

  lemma ScanStep(index: Index, previous: Prompt, current: Prompt, blockSize: nat, lo: nat, i: nat)
    requires blockSize >= 1 && Indexes(index, previous, blockSize, |previous|)
    requires lo <= i < |current| / blockSize
    ensures i * blockSize + blockSize <= |current|
    ensures Candidates(previous, current, blockSize, lo, i + 1) ==
      Candidates(previous, current, blockSize, lo, i) + Found(index, current, blockSize, i)
  {
    BlockFits(|current|, blockSize, i);
    LookUp(index, previous, current, blockSize, i);
  }

  /** Looking a block up in the index decides whether it is a candidate, and which one. */
  lemma LookUp(index: Index, previous: Prompt, current: Prompt, blockSize: nat, i: nat)
    requires blockSize >= 1 && i * blockSize + blockSize <= |current| && Indexes(index, previous, blockSize, |previous|)
    ensures Found(index, current, blockSize, i) ==
      match CandidateAt(previous, current, blockSize, i) { case None => [] case Some(c) => [c] }
  {
    assert IndexedTo(index, previous, blockSize, |previous|, BlockTokens(current, blockSize, i));
    DivideMultiple(i, blockSize);
  }

  // ---------- the analysis ----------

  /** A stretch of equal tokens that a sequence matcher reports. */
  datatype MatchingSpan = MatchingSpan(previousStart: nat, currentStart: nat, tokenCount: nat)

  /** The tokens of the spans that lie past the shared prefix. */
  function PostEdit(spans: seq<MatchingSpan>, prefix: nat): nat {
    if |spans| == 0 then 0
    else PostEdit(spans[..|spans| - 1], prefix) + PastPrefix(spans[|spans| - 1], prefix)
  }

  function PastPrefix(span: MatchingSpan, prefix: nat): nat {
    var end, from := span.currentStart + span.tokenCount,
      if span.currentStart < prefix then prefix else span.currentStart;
    if end < from then 0 else end - from
  }

  /** Spans in order, without overlap, inside a prompt of `count` tokens. */
  predicate Monotonic(spans: seq<MatchingSpan>, count: nat) {
    && (forall i :: 0 <= i < |spans| ==> spans[i].currentStart + spans[i].tokenCount <= count)
    && forall i, j :: 0 <= i < j < |spans| ==> spans[i].currentStart + spans[i].tokenCount <= spans[j].currentStart
  }

  method PostEditMatchingTokens(spans: seq<MatchingSpan>, prefix: nat) returns (total: nat)
    ensures total == PostEdit(spans, prefix)
  {
    total := 0;
    for n := 0 to |spans|
      invariant total == PostEdit(spans[..n], prefix)
    {
      assert spans[..n + 1][..n] == spans[..n];
      total := total + PastPrefix(spans[n], prefix);
    }
    assert spans[..|spans|] == spans;
  }

  /** A position of the current prompt that a span matches. */
  predicate InSpan(span: MatchingSpan, t: nat) {
    span.currentStart <= t < span.currentStart + span.tokenCount
  }

  ghost predicate Covered(spans: seq<MatchingSpan>, t: nat) {
    exists i :: 0 <= i < |spans| && InSpan(spans[i], t)
  }

  /** For spans in order, the total is the number of matched positions from the prefix on. */
  lemma PostEditCountsPositions(spans: seq<MatchingSpan>, prefix: nat, count: nat)
    requires Monotonic(spans, count)
    ensures PostEdit(spans, prefix) == |set t: nat | prefix <= t < count && Covered(spans, t)|
  {
    var lo, hi := Edges(spans, prefix);
    PositionsPastEdges(spans, prefix, count, lo, hi, set t: nat | prefix <= t < count && Covered(spans, t));
  }

  lemma PositionsPastEdges(spans: seq<MatchingSpan>, prefix: nat, count: nat, lo: seq<nat>, hi: seq<nat>,
                           all: set<nat>)
    requires Monotonic(spans, count) && PastEdges(spans, prefix, lo, hi)
    requires forall t: nat :: t in all <==> prefix <= t < count && Covered(spans, t)
    ensures PostEdit(spans, prefix) == |all|
  {
    PostEditIsWidth(spans, prefix, lo, hi);
    SpansInOrder(spans, prefix, count, lo, hi);
    forall t: nat ensures t in all <==> Within(lo, hi, t) {
      CoveredWithin(spans, prefix, count, lo, hi, t);
    }
    WidthIsPositions(lo, hi, all);
  }

  lemma Edges(spans: seq<MatchingSpan>, prefix: nat) returns (lo: seq<nat>, hi: seq<nat>)
    ensures PastEdges(spans, prefix, lo, hi)
  {
    lo := seq(|spans|, i requires 0 <= i < |spans| => Max(prefix, spans[i].currentStart));
    hi := seq(|spans|, i requires 0 <= i < |spans| => Max(prefix, spans[i].currentStart + spans[i].tokenCount));
  }

  /** The ends of the spans, moved up to the prefix. */
  ghost predicate PastEdges(spans: seq<MatchingSpan>, prefix: nat, lo: seq<nat>, hi: seq<nat>) {
    && |lo| == |hi| == |spans|
    && (forall i :: 0 <= i < |spans| ==> lo[i] == Max(prefix, spans[i].currentStart))
    && (forall i :: 0 <= i < |spans| ==> hi[i] == Max(prefix, spans[i].currentStart + spans[i].tokenCount))
  }

  lemma SpansInOrder(spans: seq<MatchingSpan>, prefix: nat, count: nat, lo: seq<nat>, hi: seq<nat>)
    requires Monotonic(spans, count) && PastEdges(spans, prefix, lo, hi)
    ensures InOrder(lo, hi)
  {
  }

  lemma {:induction false} PostEditIsWidth(spans: seq<MatchingSpan>, prefix: nat, lo: seq<nat>, hi: seq<nat>)
    requires PastEdges(spans, prefix, lo, hi)
    ensures PostEdit(spans, prefix) == Width(lo, hi)
  {
    if |spans| == 0 {
    } else {
      var n := |spans| - 1;
      PostEditIsWidth(spans[..n], prefix, lo[..n], hi[..n]);
    }
  }

  lemma CoveredWithin(spans: seq<MatchingSpan>, prefix: nat, count: nat, lo: seq<nat>, hi: seq<nat>, t: nat)
    requires Monotonic(spans, count) && PastEdges(spans, prefix, lo, hi)
    ensures prefix <= t < count && Covered(spans, t) <==> Within(lo, hi, t)
  {
    if prefix <= t && Covered(spans, t) {
      var i :| 0 <= i < |spans| && InSpan(spans[i], t);
      assert lo[i] <= t < hi[i];
    }
    if Within(lo, hi, t) {
      var i :| 0 <= i < |lo| && lo[i] <= t < hi[i];
      assert InSpan(spans[i], t);
    }
  }

  /** Monotonic spans match no more than what follows the prefix. */
  lemma {:induction false} PostEditFits(spans: seq<MatchingSpan>, prefix: nat, count: nat)
    requires Monotonic(spans, count) && prefix <= count
    ensures PostEdit(spans, prefix) <= count - prefix
    decreases |spans|
  {
    if |spans| == 0 {
    } else {
      var n := |spans| - 1;
      var start := spans[n].currentStart;
      if prefix <= start {
        PostEditFits(spans[..n], prefix, start);
      } else {
        NothingPast(spans[..n], prefix);
      }
    }
  }

  lemma {:induction false} NothingPast(spans: seq<MatchingSpan>, prefix: nat)
    requires forall i :: 0 <= i < |spans| ==> spans[i].currentStart + spans[i].tokenCount <= prefix
    ensures PostEdit(spans, prefix) == 0
  {
    if |spans| == 0 {
    } else {
      NothingPast(spans[..|spans| - 1], prefix);
    }
  }

  datatype Opportunity = Opportunity(
    blockSize: nat, previousCount: nat, currentCount: nat, exactPrefix: nat, native: nat, alignmentLoss: nat,
    commonSuffix: nat, spans: seq<MatchingSpan>, postEditMatching: nat, recomputedFullBlocks: nat,
    candidateCount: nat, candidateTokens: nat,
    wholeSourceCount: nat, repackingCount: nat, movedCount: nat, share: real, candidates: seq<Candidate>)

  function WholeSource(cs: seq<Candidate>): nat {
    if |cs| == 0 then 0 else WholeSource(cs[..|cs| - 1]) + if cs[|cs| - 1].HasWholeSource() then 1 else 0
  }

  function Repacking(cs: seq<Candidate>): nat {
    if |cs| == 0 then 0 else Repacking(cs[..|cs| - 1]) + if cs[|cs| - 1].RequiresRepacking() then 1 else 0
  }

  function MovedCount(cs: seq<Candidate>): nat {
    if |cs| == 0 then 0 else MovedCount(cs[..|cs| - 1]) + if cs[|cs| - 1].Moved() then 1 else 0
  }

  lemma {:induction false} SourcesPartition(cs: seq<Candidate>)
    ensures WholeSource(cs) + Repacking(cs) == |cs| && MovedCount(cs) <= |cs|
  {
    if |cs| == 0 {
    } else {
      SourcesPartition(cs[..|cs| - 1]);
    }
  }

  /** The counts are the candidates with an aligned source, without one, and without a source in place. */
  lemma {:induction false} SourcesArePositions(cs: seq<Candidate>)
    ensures WholeSource(cs) == |set i: nat | i < |cs| && cs[i].alignedStarts != []|
    ensures Repacking(cs) == |set i: nat | i < |cs| && cs[i].alignedStarts == []|
    ensures MovedCount(cs) == |set i: nat | i < |cs| && !cs[i].samePosition|
  {
    var whole, repacked := (c: Candidate) => c.alignedStarts != [], (c: Candidate) => c.alignedStarts == [];
    var moved := (c: Candidate) => !c.samePosition;
    CountSources(cs, whole, repacked, moved);
    assert Where(cs, whole) == set i: nat | i < |cs| && cs[i].alignedStarts != [];
    assert Where(cs, repacked) == set i: nat | i < |cs| && cs[i].alignedStarts == [];
    assert Where(cs, moved) == set i: nat | i < |cs| && !cs[i].samePosition;
  }

  lemma {:induction false} CountSources(cs: seq<Candidate>, whole: Candidate -> bool, repacked: Candidate -> bool,
                                        moved: Candidate -> bool)
    requires forall c :: whole(c) == (c.alignedStarts != []) && repacked(c) == (c.alignedStarts == [])
    requires forall c :: moved(c) == !c.samePosition
    ensures WholeSource(cs) == |Where(cs, whole)| && Repacking(cs) == |Where(cs, repacked)|
    ensures MovedCount(cs) == |Where(cs, moved)|
  {
    if |cs| == 0 {
    } else {
      CountSources(cs[..|cs| - 1], whole, repacked, moved);
      WhereLast(cs, whole);
      WhereLast(cs, repacked);
      WhereLast(cs, moved);
    }
  }

  /** Candidate tokens fit between the native hit and the end of the prompt. */
  lemma CandidateTokensFit(native: nat, blockSize: nat, tokens: nat, count: nat)
    requires blockSize >= 1 && native <= tokens
    requires count <= RecomputedEnd(native, blockSize, tokens) - FirstRecomputed(native, blockSize)
    ensures count * blockSize <= tokens - native
  {
    var lo, hi := FirstRecomputed(native, blockSize), RecomputedEnd(native, blockSize, tokens);
    RoundUpBounds(native, blockSize);
    QuotientBounds(tokens, blockSize);
    if lo < hi {
      var rest := hi - lo - count;
      assert hi * blockSize == lo * blockSize + count * blockSize + rest * blockSize;
    }
  }

  /** The recomputed full blocks are the full blocks of the prompt that start at or past the native hit. */
  lemma RecomputedAreBlocks(native: nat, blockSize: nat, tokens: nat, blocks: set<nat>)
    requires blockSize >= 1
    requires forall i: nat :: i in blocks <==> native <= i * blockSize && i * blockSize + blockSize <= tokens
    ensures |blocks| == RecomputedEnd(native, blockSize, tokens) - FirstRecomputed(native, blockSize)
  {
    var lo, hi := FirstRecomputed(native, blockSize), RecomputedEnd(native, blockSize, tokens);
    forall i: nat ensures i in blocks <==> lo <= i < hi {
      BlockPastHit(native, blockSize, i);
      BlockInside(tokens, blockSize, i);
    }
    assert blocks == Interval(lo, hi);
  }

  lemma BlockInside(tokens: nat, blockSize: nat, i: nat)
    requires blockSize >= 1
    ensures i * blockSize + blockSize <= tokens <==> i < tokens / blockSize
  {
    QuotientBounds(tokens, blockSize);
    MultiplesOrdered(tokens / blockSize, i, blockSize);
    MultiplesOrdered(i, tokens / blockSize, blockSize);
    assert (i + 1) * blockSize == i * blockSize + blockSize;
    MultiplesOrdered(i + 1, tokens / blockSize + 1, blockSize);
    MultiplesOrdered(tokens / blockSize + 1, i + 1, blockSize);
  }

  /** `max(0, (end - first) // block_size)` counts the recomputed blocks. */
  lemma RecomputedBlocks(lo: nat, n: nat, blockSize: nat)
    requires blockSize >= 1
    ensures lo < n ==> (n * blockSize - lo * blockSize) / blockSize == n - lo
    ensures n * blockSize <= lo * blockSize <==> n <= lo
  {
    MultiplesOrdered(lo, n, blockSize);
    assert n * blockSize - lo * blockSize == (n - lo) * blockSize;
    DivideMultiple(n - lo, blockSize);
  }

  function Share(tokens: nat, recomputed: nat): (r: real)
    requires tokens <= recomputed
    ensures 0.0 <= r <= 1.0
    ensures r * recomputed as real == tokens as real
  {
    if recomputed == 0 then 0.0 else tokens as real / recomputed as real
  }

  /** When the source rejects its arguments. */
  predicate Rejects(previous: Prompt, current: Prompt, native: int, blockSize: int) {
    blockSize < 1 || native < 0 || native > |current| || native > SharedPrefix(previous, current)
  }

  /** The analysis, with the spans a sequence matcher reports for the two prompts. */
  method AnalyzeReuseOpportunity(previous: Prompt, current: Prompt, native: int, blockSize: int,
                                 spans: seq<MatchingSpan>)
    returns (r: Result<Opportunity>)
    ensures r.Err? <==> Rejects(previous, current, native, blockSize)
    ensures r.Ok? ==>
      var o := r.value;
      && o.blockSize == blockSize && o.previousCount == |previous| && o.currentCount == |current| && o.native == native
      && o.exactPrefix == SharedPrefix(previous, current) && o.alignmentLoss == o.exactPrefix - native
      && o.commonSuffix == Suffix(previous, current)
      && o.spans == spans && o.postEditMatching == PostEdit(spans, o.exactPrefix)
      && o.candidates == AllCandidates(previous, current, native, blockSize)
      && o.candidateCount == |o.candidates| <= o.recomputedFullBlocks
      && o.recomputedFullBlocks == RecomputedEnd(native, blockSize, |current|) - FirstRecomputed(native, blockSize)
      && o.wholeSourceCount == WholeSource(o.candidates) && o.movedCount == MovedCount(o.candidates)
      && o.wholeSourceCount + o.repackingCount == o.candidateCount
      && o.candidateTokens == o.candidateCount * blockSize <= |current| - native
      && o.share == Share(o.candidateTokens, |current| - native)
  {
    if blockSize < 1 {
      return Err("block_size must be positive");
    }
    if native < 0 || native > |current| {
      return Err("native_cached_tokens must be between zero and current token count");
    }
    var exactPrefix := CommonPrefixLength(previous, current);
    if native > exactPrefix {
      return Err("native_cached_tokens exceeds the exact common prefix");
    }
    var commonSuffix := CommonSuffixLength(previous, current, exactPrefix);
    var postEditMatching := PostEditMatchingTokens(spans, exactPrefix);
    var candidates := CollectCandidates(previous, current, native, blockSize);
    return Ok(Summarize(previous, current, native, blockSize, exactPrefix, commonSuffix, candidates)
              .(spans := spans, postEditMatching := postEditMatching));
  }

  /** The counts reported beside the candidates. */
  function Summarize(previous: Prompt, current: Prompt, native: nat, blockSize: nat, exactPrefix: nat,
                     commonSuffix: nat,
                     candidates: seq<Candidate>): (o: Opportunity)
    requires blockSize >= 1 && native <= |current| && native <= exactPrefix
    requires candidates == AllCandidates(previous, current, native, blockSize)
    ensures o.candidateCount <= o.recomputedFullBlocks ==
      RecomputedEnd(native, blockSize, |current|) - FirstRecomputed(native, blockSize)
    ensures o.candidateTokens <= |current| - native
    ensures o.wholeSourceCount + o.repackingCount == o.candidateCount
  {
    var lo, end := (native + blockSize - 1) / blockSize, |current| / blockSize;
    var first, stop := lo * blockSize, end * blockSize;
    RecomputedBlocks(lo, end, blockSize);
    SourcesPartition(candidates);
    CandidateTokensFit(native, blockSize, |current|, |candidates|);
    var tokens := |candidates| * blockSize;
    Opportunity(blockSize, |previous|, |current|, exactPrefix, native, exactPrefix - native, commonSuffix, [], 0,
                if stop <= first then 0 else (stop - first) / blockSize, |candidates|, tokens,
                WholeSource(candidates), Repacking(candidates), MovedCount(candidates),
                Share(tokens, |current| - native), candidates)
  }

  // ---------- a hit estimated from the edit ----------

  /** The CPU estimate of the native hit: the edit start rounded down to a block. */
  function EstimatedHit(previous: Prompt, current: Prompt, blockSize: nat): nat
    requires blockSize >= 1
  {
    SharedPrefix(previous, current) / blockSize * blockSize
  }

  lemma EstimatedHitIsAccepted(previous: Prompt, current: Prompt, blockSize: nat)
    requires blockSize >= 1
    ensures !Rejects(previous, current, EstimatedHit(previous, current, blockSize), blockSize)
    ensures FirstRecomputed(EstimatedHit(previous, current, blockSize), blockSize) ==
      SharedPrefix(previous, current) / blockSize
  {
    QuotientBounds(SharedPrefix(previous, current), blockSize);
    RoundUpMultiple(SharedPrefix(previous, current) / blockSize, blockSize);
  }

  /** Where a stretch of a shared tail sits in the other prompt. */
  lemma TailStretchOccurs(previous: Prompt, current: Prompt, s: nat, start: nat, width: nat)
    requires s <= |previous| && s <= |current| && Tail(previous, s) == Tail(current, s)
    requires |current| - s <= start && start + width <= |current|
    ensures start + |previous| >= |current|
    ensures OccursAt(previous, current[start..start + width], start + |previous| - |current|)
  {
    var k := start - (|current| - s);
    TailSlice(current, s, k, width);
    TailSlice(previous, s, k, width);
  }

  lemma TailSlice(t: Prompt, s: nat, k: nat, width: nat)
    requires k + width <= s <= |t|
    ensures Tail(t, s)[k..k + width] == t[|t| - s + k..|t| - s + k + width]
  {
  }

  /**
   Whatever hit is accepted, every full block inside the common suffix is a candidate, and it has a
   whole source block whenever the edit changes the length by a multiple of the block size.
   */
  lemma SuffixBlocksAreCandidates(previous: Prompt, current: Prompt, native: nat, blockSize: nat, i: nat)
    returns (c: Candidate)
    requires blockSize >= 1 && !Rejects(previous, current, native, blockSize)
    requires |current| - Suffix(previous, current) <= i * blockSize && i * blockSize + blockSize <= |current|
    ensures c in AllCandidates(previous, current, native, blockSize) && c.blockIndex == i
    ensures (|previous| - |current|) % blockSize == 0 ==> c.HasWholeSource()
  {
    SuffixBlockOccurs(previous, current, blockSize, i);
    c := ShiftedBlockIsListed(previous, current, native, blockSize, i, |previous| - |current|);
  }

  lemma ShiftedBlockIsListed(previous: Prompt, current: Prompt, native: nat, blockSize: nat, i: nat, d: int)
    returns (c: Candidate)
    requires blockSize >= 1 && native <= i * blockSize && i * blockSize + blockSize <= |current|
    requires i * blockSize + d >= 0 && OccursAt(previous, BlockTokens(current, blockSize, i), i * blockSize + d)
    ensures c in AllCandidates(previous, current, native, blockSize) && c.blockIndex == i
    ensures d % blockSize == 0 ==> c.HasWholeSource()
  {
    c := CandidateIsListed(previous, current, native, blockSize, i, i * blockSize + d);
    if d % blockSize == 0 {
      ShiftedMultiple(i, blockSize, d);
    }
  }

  lemma ShiftedMultiple(i: nat, blockSize: nat, d: int)
    requires blockSize >= 1 && d % blockSize == 0
    ensures (i * blockSize + d) % blockSize == 0
  {
    DivideMultiple(i, blockSize);
    SumOfMultiples(i * blockSize, d, blockSize);
  }

  lemma SuffixBlockOccurs(previous: Prompt, current: Prompt, blockSize: nat, i: nat)
    requires |current| - Suffix(previous, current) <= i * blockSize && i * blockSize + blockSize <= |current|
    ensures i * blockSize + |previous| >= |current|
    ensures OccursAt(previous, BlockTokens(current, blockSize, i), i * blockSize + |previous| - |current|)
  {
    TailStretchOccurs(previous, current, Suffix(previous, current), i * blockSize, blockSize);
  }
}
