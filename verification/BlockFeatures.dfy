/** Runtime features of candidate blocks: the edit envelope, its blocks and token overlaps. */
module BlockFeatures {
  import opened Arithmetic
  import opened Common
  import opened TokenEdges
  import opened ReuseOpportunity

  // ---------- the edit envelope ----------

  datatype Region = Region(previousStart: nat, previousEnd: nat, currentStart: nat, currentEnd: nat)

  /** What a prefix and a suffix of both prompts leave. */
  function Between(previous: Prompt, current: Prompt, prefix: nat, suffix: nat): (r: Region)
    requires prefix + suffix <= |previous| && prefix + suffix <= |current|
    ensures r.previousStart <= r.previousEnd <= |previous| && r.currentStart <= r.currentEnd <= |current|
  {
    Region(prefix, |previous| - suffix, prefix, |current| - suffix)
  }

  /** The one enclosing region that contains every edit. */
  function ChangedRegion(previous: Prompt, current: Prompt): (r: Region)
    ensures r.previousStart <= r.previousEnd <= |previous| && r.currentStart <= r.currentEnd <= |current|
  {
    Between(previous, current, SharedPrefix(previous, current), Suffix(previous, current))
  }

  function RemovedRegion(previous: Prompt, current: Prompt): Prompt {
    var r := ChangedRegion(previous, current);
    previous[r.previousStart..r.previousEnd]
  }

  function InsertedRegion(previous: Prompt, current: Prompt): Prompt {
    var r := ChangedRegion(previous, current);
    current[r.currentStart..r.currentEnd]
  }

  method LocateChangedTokenRegion(previous: Prompt, current: Prompt) returns (r: Region)
    ensures r == ChangedRegion(previous, current)
  {
    var prefix := CommonPrefixLength(previous, current);
    var suffix := CommonSuffixLength(previous, current, prefix);
    r := Between(previous, current, prefix, suffix);
  }

  /** Both prompts are the same prefix and suffix around their own changed tokens. */
  lemma RegionReconstructs(previous: Prompt, current: Prompt)
    ensures var p, s := SharedPrefix(previous, current), Suffix(previous, current);
      && previous == Head(previous, p) + RemovedRegion(previous, current) + Tail(previous, s)
      && current == Head(previous, p) + InsertedRegion(previous, current) + Tail(previous, s)
  {
    Reassemble(previous, current, SharedPrefix(previous, current), Suffix(previous, current));
  }

  lemma Reassemble(l: Prompt, r: Prompt, p: nat, s: nat)
    requires p + s <= Min(|l|, |r|) && Head(l, p) == Head(r, p) && Tail(l, s) == Tail(r, s)
    ensures l == Head(l, p) + l[p..|l| - s] + Tail(l, s)
    ensures r == Head(l, p) + r[p..|r| - s] + Tail(l, s)
  {
  }

  /** No other shared prefix and suffix leave fewer changed tokens. */
  lemma RegionIsSmallest(previous: Prompt, current: Prompt, prefix: nat, suffix: nat)
    requires prefix + suffix <= Min(|previous|, |current|)
    requires Head(previous, prefix) == Head(current, prefix) && Tail(previous, suffix) == Tail(current, suffix)
    ensures |RemovedRegion(previous, current)| <= |previous| - prefix - suffix
    ensures |InsertedRegion(previous, current)| <= |current| - prefix - suffix
  {
    EdgesAreLargest(previous, current, prefix, suffix);
  }

  /** Introduced and removed tokens of the envelope are those of the whole prompts. */
  lemma EditMultisetsAreGlobal(previous: Prompt, current: Prompt)
    ensures multiset(InsertedRegion(previous, current)) - multiset(RemovedRegion(previous, current)) ==
      multiset(current) - multiset(previous)
    ensures multiset(RemovedRegion(previous, current)) - multiset(InsertedRegion(previous, current)) ==
      multiset(previous) - multiset(current)
  {
    var h, t := Head(previous, SharedPrefix(previous, current)), Tail(previous, Suffix(previous, current));
    RegionReconstructs(previous, current);
    SharedPartsCancel(h, RemovedRegion(previous, current), InsertedRegion(previous, current), t);
  }

  lemma SharedPartsCancel(h: Prompt, x: Prompt, y: Prompt, t: Prompt)
    ensures multiset(y) - multiset(x) == multiset(h + y + t) - multiset(h + x + t)
    ensures multiset(x) - multiset(y) == multiset(h + x + t) - multiset(h + y + t)
  {
    assert multiset(h + x + t) == multiset(h) + multiset(x) + multiset(t);
    assert multiset(h + y + t) == multiset(h) + multiset(y) + multiset(t);
  }

  // ---------- changed blocks ----------

  /** First and last changed block of the current prompt; an empty edit still names its block. */
  function ChangedBlocks(r: Region, blockSize: nat): (b: (nat, nat))
    requires blockSize >= 1 && r.currentStart <= r.currentEnd
    ensures b.0 <= b.1
  {
    var first := r.currentStart / blockSize;
    if r.currentStart == r.currentEnd then (first, first)
    else
      DivisionMonotone(r.currentStart, r.currentEnd - 1, blockSize);
      (first, (r.currentEnd - 1) / blockSize)
  }

  lemma DivisionMonotone(a: nat, b: nat, n: nat)
    requires n >= 1 && a <= b
    ensures a / n <= b / n
  {
    QuotientBounds(a, n);
    QuotientBounds(b, n);
    MultiplesOrdered(b / n, a / n, n);
  }

  /** The bounds enclose exactly the blocks that hold a changed token. */
  lemma ChangedBlocksHoldChanges(r: Region, blockSize: nat, b: nat)
    requires blockSize >= 1 && r.currentStart < r.currentEnd
    ensures ChangedBlocks(r, blockSize).0 <= b <= ChangedBlocks(r, blockSize).1 <==>
      exists t: nat :: r.currentStart <= t < r.currentEnd && t / blockSize == b
  {
    var (first, last) := ChangedBlocks(r, blockSize);
    if first <= b <= last {
      var t := if b == first then r.currentStart else b * blockSize;
      QuotientBounds(r.currentStart, blockSize);
      QuotientBounds(r.currentEnd - 1, blockSize);
      MultiplesOrdered(first, b, blockSize);
      MultiplesOrdered(last, b, blockSize);
      DivideMultiple(b, blockSize);
      assert r.currentStart <= t < r.currentEnd && t / blockSize == b;
    }
    if exists t: nat :: r.currentStart <= t < r.currentEnd && t / blockSize == b {
      var t: nat :| r.currentStart <= t < r.currentEnd && t / blockSize == b;
      DivisionMonotone(r.currentStart, t, blockSize);
      DivisionMonotone(t, r.currentEnd - 1, blockSize);
    }
  }

  /** An edit that inserts nothing names the one block that holds its position. */
  lemma EmptyEditBlock(r: Region, blockSize: nat)
    requires blockSize >= 1 && r.currentStart == r.currentEnd
    ensures var b := ChangedBlocks(r, blockSize);
      b.0 == b.1 && b.0 * blockSize <= r.currentStart < b.0 * blockSize + blockSize
  {
    QuotientBounds(r.currentStart, blockSize);
  }

  function RelativeOffset(block: nat, first: nat, last: nat): int {
    if block < first then block - first else if block > last then block - last else 0
  }

  function Abs(x: int): nat {
    if x < 0 then -x else x
  }

  /** The offset points at a changed block, and no changed block is nearer. */
  lemma OffsetIsNearest(block: nat, first: nat, last: nat, b: nat)
    requires first <= b <= last
    ensures first <= block - RelativeOffset(block, first, last) <= last
    ensures Abs(RelativeOffset(block, first, last)) <= Abs(block - b)
  {
  }

  /** With the hit estimated from the edit, no candidate precedes the edit. */
  lemma CandidatesFollowTheEdit(previous: Prompt, current: Prompt, blockSize: nat, c: Candidate)
    requires blockSize >= 1
    requires c in AllCandidates(previous, current, EstimatedHit(previous, current, blockSize), blockSize)
    ensures var b := ChangedBlocks(ChangedRegion(previous, current), blockSize);
      RelativeOffset(c.blockIndex, b.0, b.1) >= 0
  {
    var native := EstimatedHit(previous, current, blockSize);
    EstimatedHitIsAccepted(previous, current, blockSize);
    CandidatesAreExact(previous, current, blockSize,
                       FirstRecomputed(native, blockSize), RecomputedEnd(native, blockSize, |current|), c);
  }

  // ---------- sources and overlaps ----------

  /** The occurrence closest to `at`, the earlier one on a tie. */
  function NearestStart(starts: seq<nat>, at: nat): (s: nat)
    requires starts != []
    ensures s in starts
    ensures forall p :: p in starts ==> Abs(s - at) < Abs(p - at) || (Abs(s - at) == Abs(p - at) && s <= p)
  {
    var last := starts[|starts| - 1];
    assert starts == starts[..|starts| - 1] + [last];
    if |starts| == 1 then last
    else
      var best := NearestStart(starts[..|starts| - 1], at);
      if Abs(last - at) < Abs(best - at) || (Abs(last - at) == Abs(best - at) && last < best) then last else best
  }

  function OverlapRatio(source: multiset<Token>, block: multiset<Token>): real {
    Ratio(|source * block|, |source|)
  }

  /** The share of the source found in the block: one exactly when the block contains the whole source. */
  lemma OverlapRatioMeaning(source: multiset<Token>, block: multiset<Token>)
    ensures OverlapRatio(source, block) * |source| as real == |source * block| as real
    ensures 0.0 <= OverlapRatio(source, block) <= 1.0
    ensures OverlapRatio(source, block) == 1.0 <==> |source| > 0 && source <= block
    ensures OverlapRatio(source, block) == 0.0 <==> source * block == multiset{}
  {
    SharedSize(source, block);
    RatioRange(|source * block|, |source|);
    RatioScales(|source * block|, |source|, OverlapRatio(source, block));
  }

  lemma SharedSize(source: multiset<Token>, block: multiset<Token>)
    ensures |source * block| <= |source|
    ensures |source * block| == |source| <==> source <= block
    ensures |source * block| == 0 <==> source * block == multiset{}
  {
    var shared := source * block;
    assert source == shared + (source - shared);
    assert |source - shared| == 0 <==> source == shared;
    assert source == shared <==> source <= block;
  }

  function Jaccard(left: set<Token>, right: set<Token>): real {
    if left + right == {} then 1.0 else Ratio(|left * right|, |left + right|)
  }

  /** The share of common tokens in all tokens of either side: one exactly when both use the same ones. */
  lemma JaccardMeaning(left: set<Token>, right: set<Token>)
    ensures Jaccard(left, right) * |left + right| as real == |left * right| as real
    ensures 0.0 <= Jaccard(left, right) <= 1.0
    ensures Jaccard(left, right) == 1.0 <==> left == right
    ensures Jaccard(left, right) == Jaccard(right, left)
  {
    var both, union := left * right, left + right;
    CommonSize(left, right);
    RatioRange(|both|, |union|);
    RatioScales(|both|, |union|, Ratio(|both|, |union|));
    assert right * left == both && right + left == union;
  }

  lemma CommonSize(left: set<Token>, right: set<Token>)
    ensures |left * right| <= |left + right|
    ensures |left * right| == |left + right| <==> left == right
  {
    var both, union := left * right, left + right;
    assert union == both + (union - both);
    assert both !! union - both;
    assert |union| == |both| + |union - both|;
    assert union - both == {} <==> left == right;
  }

  // ---------- extraction ----------

  datatype Features = Features(
    removedCount: nat, insertedCount: nat, blockIndex: nat, relativeOffset: int, nearestDistance: nat,
    sourceStart: nat, samePosition: bool, requiresRepacking: bool,
    changedOverlap: real, introducedOverlap: real, removedOverlap: real, changedJaccard: real)

  /** An edit as the features see it: changed tokens, net token changes and changed blocks. */
  datatype Edit = Edit(
    removed: Prompt, inserted: Prompt, dropped: multiset<Token>, introduced: multiset<Token>, first: nat, last: nat)

  /** The edit between two prompts, with net changes taken over the whole prompts. */
  function EditOf(previous: Prompt, current: Prompt, blockSize: nat): Edit
    requires blockSize >= 1
  {
    var b := ChangedBlocks(ChangedRegion(previous, current), blockSize);
    Edit(RemovedRegion(previous, current), InsertedRegion(previous, current),
         multiset(previous) - multiset(current), multiset(current) - multiset(previous), b.0, b.1)
  }

  /** `tokens[from:to]`, which stops at the end of the prompt. */
  function Slice(t: Prompt, from: nat, to: nat): Prompt
    requires from <= to
  {
    t[Min(from, |t|)..Min(to, |t|)]
  }

  /** What any analysis guarantees about its own result: a positive block size and a source for every candidate. */
  predicate Sourced(o: Opportunity) {
    o.blockSize >= 1 && forall k :: 0 <= k < |o.candidates| ==> o.candidates[k].previousStarts != []
  }

  function FeatureRow(c: Candidate, e: Edit, block: Prompt): Features
    requires c.previousStarts != []
  {
    var offset := RelativeOffset(c.blockIndex, e.first, e.last);
    Features(
      |e.removed|, |e.inserted|, c.blockIndex, offset, Abs(offset), NearestStart(c.previousStarts, c.start),
      c.samePosition, c.RequiresRepacking(),
      OverlapRatio(multiset(e.inserted), multiset(block)), OverlapRatio(e.introduced, multiset(block)),
      OverlapRatio(e.dropped, multiset(block)), Jaccard(Elements(e.inserted), Elements(block)))
  }

  /** The row of a candidate of a prompt against an edit. */
  function RowOf(c: Candidate, e: Edit, current: Prompt, blockSize: nat): Features
    requires c.previousStarts != []
  {
    FeatureRow(c, e, Slice(current, c.start, c.start + blockSize))
  }

  /** One row per candidate, in order. */
  ghost predicate RowsAgainst(rows: seq<Features>, o: Opportunity, e: Edit, current: Prompt)
    requires Sourced(o)
  {
    |rows| == |o.candidates| && forall k :: 0 <= k < |rows| ==>
      rows[k] == RowOf(o.candidates[k], e, current, o.blockSize)
  }

  /** The net changes are taken inside the envelope, and are nevertheless those of the prompts. */
  method LocateEdit(previous: Prompt, current: Prompt, blockSize: nat) returns (e: Edit)
    requires blockSize >= 1
    ensures e == EditOf(previous, current, blockSize)
  {
    var region := LocateChangedTokenRegion(previous, current);
    var (first, last) := ChangedBlocks(region, blockSize);
    var removed := previous[region.previousStart..region.previousEnd];
    var inserted := current[region.currentStart..region.currentEnd];
    EditMultisetsAreGlobal(previous, current);
    e := Edit(removed, inserted, multiset(removed) - multiset(inserted), multiset(inserted) - multiset(removed),
              first, last);
  }

  /** The analysis of any two prompts is sourced, and its candidates are full blocks of its own current prompt. */
  lemma AnalysisIsSourced(o: Opportunity, previous: Prompt, current: Prompt)
    requires o.blockSize >= 1 && o.candidates == AllCandidates(previous, current, o.native, o.blockSize)
    ensures Sourced(o)
    ensures forall k :: 0 <= k < |o.candidates| ==> o.candidates[k].start + o.blockSize <= |current|
    ensures forall k :: 0 <= k < |o.candidates| ==>
      |Slice(current, o.candidates[k].start, o.candidates[k].start + o.blockSize)| == o.blockSize
  {
    IndexAgreesWithScan(previous, current, o.native, o.blockSize);
    assert forall k :: 0 <= k < |o.candidates| ==> o.candidates[k] in o.candidates;
  }

  /** One row per candidate, in order; an opportunity of other prompts is refused if its token counts differ. */
  method ExtractBlockFeatures(previous: Prompt, current: Prompt, o: Opportunity) returns (r: Result<seq<Features>>)
    requires Sourced(o)
    ensures r.Err? <==> o.previousCount != |previous| || o.currentCount != |current|
    ensures r.Ok? ==> RowsAgainst(r.value, o, EditOf(previous, current, o.blockSize), current)
  {
    if o.previousCount != |previous| {
      return Err("previous token count does not match reuse opportunity");
    }
    if o.currentCount != |current| {
      return Err("current token count does not match reuse opportunity");
    }
    var e := LocateEdit(previous, current, o.blockSize);
    var rows := FeatureRows(current, o, e);
    return Ok(rows);
  }

  method FeatureRows(current: Prompt, o: Opportunity, e: Edit) returns (rows: seq<Features>)
    requires Sourced(o)
    ensures RowsAgainst(rows, o, e, current)
  {
    rows := [];
    for k := 0 to |o.candidates|
      invariant |rows| == k
      invariant forall j :: 0 <= j < k ==> rows[j] == RowOf(o.candidates[j], e, current, o.blockSize)
    {
      rows := rows + [RowOf(o.candidates[k], e, current, o.blockSize)];
    }
  }

  // ---------- what a row means ----------

  /** A candidate that an analysis of the two prompts lists. */
  ghost predicate Listed(c: Candidate, previous: Prompt, current: Prompt, blockSize: nat) {
    blockSize >= 1 && Witnesses(c, previous, current, blockSize)
  }

  /** A candidate with a source that is a full block of its own prompt, as every listed one is. */
  predicate Placed(c: Candidate, current: Prompt, blockSize: nat) {
    blockSize >= 1 && c.previousStarts != [] && c.start + blockSize <= |current|
  }

  /** The row of a candidate between two prompts. */
  ghost function RowBetween(previous: Prompt, current: Prompt, c: Candidate, blockSize: nat): Features
    requires Placed(c, current, blockSize)
  {
    RowOf(c, EditOf(previous, current, blockSize), current, blockSize)
  }

  /** A position of the current prompt that the edit changed. */
  ghost predicate Changed(previous: Prompt, current: Prompt, t: nat) {
    var r := ChangedRegion(previous, current);
    r.currentStart <= t < r.currentEnd
  }

  /** The offset of a row is taken from the changed blocks of the region. */
  lemma RowOffset(previous: Prompt, current: Prompt, c: Candidate, blockSize: nat)
    requires Listed(c, previous, current, blockSize)
    ensures var f := RowBetween(previous, current, c, blockSize);
      var b := ChangedBlocks(ChangedRegion(previous, current), blockSize);
      f.relativeOffset == RelativeOffset(c.blockIndex, b.0, b.1) && f.nearestDistance == Abs(f.relativeOffset)
  {
  }

  /** From any block, the offset leads to one that holds a changed token of the region, ... */
  lemma NearestHoldsChange(r: Region, blockSize: nat, block: nat) returns (t: nat)
    requires blockSize >= 1 && r.currentStart < r.currentEnd
    ensures r.currentStart <= t < r.currentEnd
    ensures var b := ChangedBlocks(r, blockSize); t / blockSize == block - RelativeOffset(block, b.0, b.1)
  {
    var b := ChangedBlocks(r, blockSize);
    OffsetIsNearest(block, b.0, b.1, b.0);
    var nearest := block - RelativeOffset(block, b.0, b.1);
    ChangedBlocksHoldChanges(r, blockSize, nearest);
    t :| r.currentStart <= t < r.currentEnd && t / blockSize == nearest;
  }

  /** ... and no changed token lies in a nearer block. */
  lemma NoChangeIsNearer(r: Region, blockSize: nat, block: nat, t: nat)
    requires blockSize >= 1 && r.currentStart <= t < r.currentEnd
    ensures var b := ChangedBlocks(r, blockSize); Abs(RelativeOffset(block, b.0, b.1)) <= Abs(block - t / blockSize)
  {
    var b := ChangedBlocks(r, blockSize);
    ChangedBlocksHoldChanges(r, blockSize, t / blockSize);
    OffsetIsNearest(block, b.0, b.1, t / blockSize);
  }

  /** The offset leads to a block that holds a changed token. */
  lemma OffsetLeadsToChange(previous: Prompt, current: Prompt, c: Candidate, blockSize: nat) returns (t: nat)
    requires Listed(c, previous, current, blockSize) && InsertedRegion(previous, current) != []
    ensures Changed(previous, current, t)
    ensures t / blockSize == c.blockIndex - RowBetween(previous, current, c, blockSize).relativeOffset
  {
    RowOffset(previous, current, c, blockSize);
    t := NearestHoldsChange(ChangedRegion(previous, current), blockSize, c.blockIndex);
  }

  /** No changed token lies in a nearer block. */
  lemma DistanceIsLeast(previous: Prompt, current: Prompt, c: Candidate, blockSize: nat, t: nat)
    requires Listed(c, previous, current, blockSize) && Changed(previous, current, t)
    ensures RowBetween(previous, current, c, blockSize).nearestDistance <= Abs(c.blockIndex - t / blockSize)
  {
    RowOffset(previous, current, c, blockSize);
    NoChangeIsNearer(ChangedRegion(previous, current), blockSize, c.blockIndex, t);
  }

  /** The source is an occurrence of the block in the previous prompt, and the nearest one. */
  lemma SourceIsNearest(previous: Prompt, current: Prompt, c: Candidate, blockSize: nat, e: Edit, source: nat, p: nat)
    requires Listed(c, previous, current, blockSize) && source == RowOf(c, e, current, blockSize).sourceStart
    requires OccursAt(previous, current[c.start..c.start + blockSize], p)
    ensures OccursAt(previous, current[c.start..c.start + blockSize], source)
    ensures Abs(source - c.start) < Abs(p - c.start) || (Abs(source - c.start) == Abs(p - c.start) && source <= p)
  {
    RowCopies(c, e, current, blockSize);
    NearestOccurrence(previous, current, c, blockSize, p);
  }

  lemma NearestOccurrence(previous: Prompt, current: Prompt, c: Candidate, blockSize: nat, p: nat)
    requires Listed(c, previous, current, blockSize)
    requires OccursAt(previous, current[c.start..c.start + blockSize], p)
    ensures var source := NearestStart(c.previousStarts, c.start);
      && OccursAt(previous, current[c.start..c.start + blockSize], source)
      && (Abs(source - c.start) < Abs(p - c.start) || (Abs(source - c.start) == Abs(p - c.start) && source <= p))
  {
    var source := NearestStart(c.previousStarts, c.start);
    assert source in c.previousStarts && p in c.previousStarts;
  }

  /** The counts of a row are the tokens that the edit removed from one prompt and inserted in the other. */
  lemma RowCounts(previous: Prompt, current: Prompt, c: Candidate, blockSize: nat, f: Features)
    requires Placed(c, current, blockSize) && f == RowBetween(previous, current, c, blockSize)
    ensures f.removedCount == |previous| - SharedPrefix(previous, current) - Suffix(previous, current)
    ensures f.insertedCount == |current| - SharedPrefix(previous, current) - Suffix(previous, current)
  {
    RowCopies(c, EditOf(previous, current, blockSize), current, blockSize);
  }

  lemma RowCopies(c: Candidate, e: Edit, current: Prompt, blockSize: nat)
    requires c.previousStarts != []
    ensures var f := RowOf(c, e, current, blockSize);
      && f.removedCount == |e.removed| && f.insertedCount == |e.inserted| && f.blockIndex == c.blockIndex
      && f.samePosition == c.samePosition && f.requiresRepacking == (c.alignedStarts == [])
      && f.sourceStart == NearestStart(c.previousStarts, c.start)
  {
  }

  /** The flags of a row: the block occurs where it stands, or never on a block boundary. */
  lemma RowFlags(previous: Prompt, current: Prompt, c: Candidate, blockSize: nat, block: Prompt, e: Edit)
    requires Listed(c, previous, current, blockSize) && block == current[c.start..c.start + blockSize]
    ensures var f := RowOf(c, e, current, blockSize);
      && f.blockIndex * blockSize == c.start
      && (f.samePosition <==> OccursAt(previous, block, c.start))
      && (f.requiresRepacking <==> forall p: nat :: OccursAt(previous, block, p) ==> p % blockSize != 0)
  {
    RowCopies(c, e, current, blockSize);
    AlignedMeaning(previous, current, c, blockSize, block);
  }

  lemma AlignedMeaning(previous: Prompt, current: Prompt, c: Candidate, blockSize: nat, block: Prompt)
    requires Listed(c, previous, current, blockSize) && block == current[c.start..c.start + blockSize]
    ensures c.alignedStarts == [] <==> forall p: nat :: OccursAt(previous, block, p) ==> p % blockSize != 0
  {
    if c.alignedStarts != [] {
      assert c.alignedStarts[0] in c.alignedStarts;
    } else {
      forall p: nat | OccursAt(previous, block, p) ensures p % blockSize != 0 {
        assert p in c.previousStarts && p !in c.alignedStarts;
      }
    }
  }

  /** The overlaps of a row with any edit are the shares of its tokens found in the block. */
  lemma OverlapsAreRatios(c: Candidate, e: Edit, current: Prompt, blockSize: nat)
    requires c.previousStarts != [] && c.start + blockSize <= |current|
    ensures var f, block := RowOf(c, e, current, blockSize), multiset(current[c.start..c.start + blockSize]);
      && f.changedOverlap == OverlapRatio(multiset(e.inserted), block)
      && f.introducedOverlap == OverlapRatio(e.introduced, block)
      && f.removedOverlap == OverlapRatio(e.dropped, block)
  {
  }

  /** The number `ratio` is the share of a multiset of tokens found in a block, zero for an empty source. */
  ghost predicate ShareOf(ratio: real, source: multiset<Token>, block: multiset<Token>) {
    ratio * |source| as real == |source * block| as real && (|source| == 0 ==> ratio == 0.0)
  }

  lemma OverlapIsShare(source: multiset<Token>, block: multiset<Token>)
    ensures ShareOf(OverlapRatio(source, block), source, block)
  {
    SharedSize(source, block);
    RatioScales(|source * block|, |source|, OverlapRatio(source, block));
  }

  /** In the rows of two prompts the sources are the changed tokens and the net changes of the whole prompts. */
  lemma OverlapsAreGlobal(previous: Prompt, current: Prompt, c: Candidate, blockSize: nat, f: Features)
    requires Placed(c, current, blockSize) && f == RowBetween(previous, current, c, blockSize)
    ensures var block := multiset(current[c.start..c.start + blockSize]);
      && ShareOf(f.changedOverlap, multiset(InsertedRegion(previous, current)), block)
      && ShareOf(f.introducedOverlap, multiset(current) - multiset(previous), block)
      && ShareOf(f.removedOverlap, multiset(previous) - multiset(current), block)
  {
    var block := multiset(current[c.start..c.start + blockSize]);
    OverlapsAreRatios(c, EditOf(previous, current, blockSize), current, blockSize);
    OverlapIsShare(multiset(InsertedRegion(previous, current)), block);
    OverlapIsShare(multiset(current) - multiset(previous), block);
    OverlapIsShare(multiset(previous) - multiset(current), block);
  }

  /** The number `ratio` is the share of the common tokens of two sets in all their tokens. */
  ghost predicate CommonShare(ratio: real, left: set<Token>, right: set<Token>) {
    ratio * |left + right| as real == |left * right| as real && (ratio == 1.0 <==> left == right)
  }

  lemma JaccardIsShare(ratio: real, left: set<Token>, right: set<Token>)
    requires ratio == Jaccard(left, right)
    ensures CommonShare(ratio, left, right)
  {
    JaccardMeaning(left, right);
  }

  /** The similarity of a row: tokens used by both the inserted tokens and the block, over tokens used by either. */
  lemma SimilarityIsShare(c: Candidate, e: Edit, block: Prompt, ratio: real)
    requires c.previousStarts != [] && ratio == FeatureRow(c, e, block).changedJaccard
    ensures CommonShare(ratio, Elements(e.inserted), Elements(block))
  {
    JaccardIsShare(ratio, Elements(e.inserted), Elements(block));
  }

  /** A row is taken against the tokens of its own block. */
  lemma RowSeesBlock(c: Candidate, e: Edit, current: Prompt, blockSize: nat, block: Prompt)
    requires Placed(c, current, blockSize) && block == Slice(current, c.start, c.start + blockSize)
    ensures block == current[c.start..c.start + blockSize]
    ensures RowOf(c, e, current, blockSize) == FeatureRow(c, e, block)
  {
  }

  /** Between two prompts, the tokens compared are those inside their region and those of the block. */
  lemma SimilarityIsGlobal(previous: Prompt, current: Prompt, c: Candidate, blockSize: nat, changed: set<Token>,
                           block: set<Token>)
    requires Placed(c, current, blockSize)
    requires changed == Elements(InsertedRegion(previous, current))
    requires block == Elements(current[c.start..c.start + blockSize])
    ensures CommonShare(RowBetween(previous, current, c, blockSize).changedJaccard, changed, block)
  {
    var ratio := RowBetween(previous, current, c, blockSize).changedJaccard;
    assert ratio == Jaccard(changed, block) by {
      var tokens := Slice(current, c.start, c.start + blockSize);
      RowSeesBlock(c, EditOf(previous, current, blockSize), current, blockSize, tokens);
    }
    JaccardIsShare(ratio, changed, block);
  }
}
