/**
 Calibrating a break-even prompt pair: doubling, then bisection on the filler count. The rendered
 and tokenized prompts are arbitrary functions of the filler count.
 */
module BreakEvenCalibration {
  import opened Arithmetic
  import opened Common
  import opened TokenEdges

  /** What a tokenizer makes of the source and target prompt at every filler count. */
  datatype Tokenizer = Tokenizer(source: nat -> Prompt, target: nat -> Prompt)

  const FILLER_LIMIT := 1_000_000

  /** The last filler count that doubling tries before it exceeds the limit. */
  const LAST_DOUBLING := 524_288

  datatype Pair = Pair(tokenCount: nat, fullBlocks: nat, reusedBlocks: nat, sharedPrefix: nat, sharedSuffix: nat,
                       fillers: nat)

  /** Enough full blocks in the source prompt. */
  predicate Fits(t: Tokenizer, blockSize: nat, required: nat, fillers: nat)
    requires blockSize >= 1
  {
    |t.source(fillers)| / blockSize >= required
  }

  /** More filler never makes the source prompt lose a full block. */
  ghost predicate Monotone(t: Tokenizer, blockSize: nat)
    requires blockSize >= 1
  {
    forall i: nat, j: nat :: i <= j ==> |t.source(i)| / blockSize <= |t.source(j)| / blockSize
  }

  /** The filler counts below `n` are all too short. */
  ghost predicate AllShort(t: Tokenizer, blockSize: nat, required: nat, n: nat)
    requires blockSize >= 1
  {
    forall k: nat :: k < n ==> !Fits(t, blockSize, required, k)
  }

  lemma ShortMeans(t: Tokenizer, blockSize: nat, required: nat, n: nat)
    requires blockSize >= 1
    ensures AllShort(t, blockSize, required, n) <==> forall k: nat :: k < n ==> |t.source(k)| / blockSize < required
  {
    forall k: nat ensures !Fits(t, blockSize, required, k) <==> |t.source(k)| / blockSize < required {
    }
    if AllShort(t, blockSize, required, n) {
      forall k: nat | k < n ensures |t.source(k)| / blockSize < required {
        assert !Fits(t, blockSize, required, k);
      }
    }
  }

  /** The least filler count with enough full blocks. */
  ghost predicate LeastFilling(t: Tokenizer, blockSize: nat, required: nat, n: nat)
    requires blockSize >= 1
  {
    |t.source(n)| / blockSize >= required && forall k: nat :: k < n ==> |t.source(k)| / blockSize < required
  }

  lemma ShortBelow(t: Tokenizer, blockSize: nat, required: nat, n: nat)
    requires blockSize >= 1 && Monotone(t, blockSize) && !Fits(t, blockSize, required, n)
    ensures AllShort(t, blockSize, required, n + 1)
  {
    forall k: nat | k < n + 1 ensures !Fits(t, blockSize, required, k) {
      assert |t.source(k)| / blockSize <= |t.source(n)| / blockSize;
    }
  }

  function Power(k: nat): nat {
    if k == 0 then 1 else 2 * Power(k - 1)
  }

  lemma {:induction false} PowerMonotone(i: nat, j: nat)
    requires i <= j
    ensures Power(i) <= Power(j)
  {
    if i < j {
      PowerMonotone(i, j - 1);
    }
  }

  lemma PowerValues()
    ensures Power(19) == LAST_DOUBLING && Power(20) > FILLER_LIMIT
  {
    assert Power(4) == 16;
    assert Power(8) == 256;
    assert Power(12) == 4096;
    assert Power(16) == 65536;
  }

  /** Doubling exceeds the limit exactly after the last power of two within it. */
  lemma DoublingStops(e: nat)
    requires e <= 19
    ensures Power(e) <= LAST_DOUBLING && (2 * Power(e) > FILLER_LIMIT <==> e == 19) &&
      (e == 19 ==> Power(e) == LAST_DOUBLING)
    ensures 1 <= Power(e)
  {
    PowerValues();
    PowerMonotone(0, e);
    PowerMonotone(e, 19);
    if e < 19 {
      PowerMonotone(e + 1, 19);
    }
  }

  /** The exponential search: an upper bound that fits, with a lower bound below which nothing is known to. */
  method Double(t: Tokenizer, blockSize: nat, required: nat) returns (r: Result<(nat, nat)>)
    requires blockSize >= 1
    ensures r.Ok? ==> r.value.0 <= r.value.1 <= LAST_DOUBLING && Fits(t, blockSize, required, r.value.1)
    ensures r.Ok? && Monotone(t, blockSize) ==> AllShort(t, blockSize, required, r.value.0)
    ensures Monotone(t, blockSize) ==> (r.Ok? <==> Fits(t, blockSize, required, LAST_DOUBLING))
  {
    var low: nat, high: nat := 0, 1;
    ghost var e: nat := 0;
    while !Fits(t, blockSize, required, high)
      invariant low <= high == Power(e) && e <= 19
      invariant Monotone(t, blockSize) ==> AllShort(t, blockSize, required, low)
      decreases 19 - e
    {
      if Monotone(t, blockSize) {
        ShortBelow(t, blockSize, required, high);
      }
      DoublingStops(e);
      low := high + 1;
      if 2 * high > FILLER_LIMIT {
        return Err("could not calibrate the requested prompt length");
      }
      high, e := 2 * high, e + 1;
    }
    DoublingStops(e);
    if Monotone(t, blockSize) {
      assert |t.source(high)| / blockSize <= |t.source(LAST_DOUBLING)| / blockSize;
    }
    return Ok((low, high));
  }

  /** The binary search keeps an upper bound that fits, whatever the tokenizer does. */
  method Bisect(t: Tokenizer, blockSize: nat, required: nat, from: nat, to: nat) returns (fillers: nat)
    requires blockSize >= 1 && from <= to && Fits(t, blockSize, required, to)
    ensures from <= fillers <= to && Fits(t, blockSize, required, fillers)
    ensures Monotone(t, blockSize) && AllShort(t, blockSize, required, from) ==>
      AllShort(t, blockSize, required, fillers)
  {
    var low, high := from, to;
    while low < high
      invariant from <= low <= high <= to && Fits(t, blockSize, required, high)
      invariant Monotone(t, blockSize) && AllShort(t, blockSize, required, from) ==>
        AllShort(t, blockSize, required, low)
    {
      var middle := (low + high) / 2;
      if !Fits(t, blockSize, required, middle) {
        if Monotone(t, blockSize) {
          ShortBelow(t, blockSize, required, middle);
        }
        low := middle + 1;
      } else {
        high := middle;
      }
    }
    fillers := low;
  }

  // ---------- the geometry of a pair ----------

  /**
   Exactly `reused + 1` full blocks, of which the first differs and all others agree, and a suffix that
   covers them.
   */
  predicate Geometry(source: Prompt, target: Prompt, blockSize: nat, reused: nat)
    requires blockSize >= 1
  {
    && |source| == |target|
    && |target| / blockSize == reused + 1
    && (reused + 1) * blockSize <= |target|
    && source[..blockSize] != target[..blockSize]
    && source[blockSize..(reused + 1) * blockSize] == target[blockSize..(reused + 1) * blockSize]
    && reused * blockSize <= Suffix(source, target)
  }

  lemma BlocksFit(tokens: nat, blockSize: nat, reused: nat)
    requires blockSize >= 1 && tokens / blockSize == reused + 1
    ensures blockSize <= (reused + 1) * blockSize <= tokens
    ensures (reused + 1) * blockSize == reused * blockSize + blockSize
  {
    QuotientBounds(tokens, blockSize);
    assert (reused + 1) * blockSize == reused * blockSize + blockSize;
  }

  /** The edit lies in the first block exactly when the first blocks differ. */
  lemma EditInFirstBlock(source: Prompt, target: Prompt, blockSize: nat)
    requires |source| == |target| && blockSize <= |target|
    ensures SharedPrefix(source, target) < blockSize <==> source[..blockSize] != target[..blockSize]
  {
    if source[..blockSize] == target[..blockSize] {
      PrefixIsLongest(source, target, blockSize);
    }
    var p := SharedPrefix(source, target);
    if p >= blockSize {
      assert Head(source, p)[..blockSize] == source[..blockSize];
      assert Head(target, p)[..blockSize] == target[..blockSize];
    }
  }

  method SharedTokenEdges(source: Prompt, target: Prompt) returns (prefix: nat, suffix: nat)
    ensures prefix == SharedPrefix(source, target) && suffix == Suffix(source, target)
  {
    prefix := CommonPrefixLength(source, target);
    suffix := CommonSuffixLength(source, target, prefix);
  }

  /** The checks on the found pair: accepted exactly when it has the required geometry. */
  method CheckPair(source: Prompt, target: Prompt, blockSize: nat, reused: nat, fillers: nat) returns (r: Result<Pair>)
    requires blockSize >= 1
    ensures r.Ok? <==> Geometry(source, target, blockSize, reused)
    ensures r.Ok? ==>
      r.value == Pair(|target|, reused + 1, reused, SharedPrefix(source, target), Suffix(source, target), fillers)
  {
    if |source| != |target| {
      return Err("source and target prompts must have equal token counts");
    }
    if |target| / blockSize != reused + 1 {
      return Err("tokenizer skipped the required full-block geometry");
    }
    BlocksFit(|target|, blockSize, reused);
    EditInFirstBlock(source, target, blockSize);
    var prefix, suffix := SharedTokenEdges(source, target);
    if prefix >= blockSize {
      return Err("the edit must occur inside the first logical block");
    }
    if source[..blockSize] == target[..blockSize] {
      assert false;
      return Err("the first logical block must differ");
    }
    var stop := (reused + 1) * blockSize;
    if source[blockSize..stop] != target[blockSize..stop] {
      return Err("the requested reusable logical blocks are not identical");
    }
    if suffix < reused * blockSize {
      return Err("the shared suffix does not cover every reusable block");
    }
    return Ok(Pair(|target|, reused + 1, reused, prefix, suffix, fillers));
  }

  /**
   The whole calibration. For any tokenizer a returned pair has the required geometry at the reported
   filler count. If the block count grows with the filler count, the reported one is the least that
   fits, and the calibration succeeds exactly when the limit suffices and that pair has the geometry.
   */
  method Calibrate(reused: int, blockSize: int, t: Tokenizer) returns (r: Result<Pair>)
    ensures r.Ok? ==> reused >= 1 && blockSize >= 1
    ensures r.Ok? ==> Geometry(t.source(r.value.fillers), t.target(r.value.fillers), blockSize, reused)
    ensures r.Ok? ==>
      var source, target := t.source(r.value.fillers), t.target(r.value.fillers);
      r.value == Pair(|target|, reused + 1, reused, SharedPrefix(source, target), Suffix(source, target),
                      r.value.fillers)
    ensures r.Ok? && Monotone(t, blockSize) ==> LeastFilling(t, blockSize, reused + 1, r.value.fillers)
    ensures reused >= 1 && blockSize >= 1 && Monotone(t, blockSize) ==>
      forall n: nat :: LeastFilling(t, blockSize, reused + 1, n) ==>
        (r.Ok? <==> n <= 524_288 && Geometry(t.source(n), t.target(n), blockSize, reused))
  {
    if reused < 1 {
      return Err("reused_block_count must be positive");
    }
    if blockSize < 1 {
      return Err("block_size must be positive");
    }
    var required := reused + 1;
    var bounds := Double(t, blockSize, required);
    if bounds.Err? {
      if Monotone(t, blockSize) {
        ShortBelow(t, blockSize, required, LAST_DOUBLING);
        ShortMeans(t, blockSize, required, LAST_DOUBLING + 1);
      }
      return Err(bounds.reason);
    }
    var fillers := Bisect(t, blockSize, required, bounds.value.0, bounds.value.1);
    if Monotone(t, blockSize) {
      ShortMeans(t, blockSize, required, fillers);
      forall n: nat | LeastFilling(t, blockSize, required, n) ensures n == fillers {
      }
    }
    r := CheckPair(t.source(fillers), t.target(fillers), blockSize, reused, fillers);
  }

  /** The reuse fraction of a calibrated pair is strictly between zero and one. */
  lemma ReuseFractionIsProper(source: Prompt, target: Prompt, blockSize: nat, reused: nat)
    requires blockSize >= 1 && reused >= 1 && Geometry(source, target, blockSize, reused)
    ensures 0 < reused * blockSize < |target|
    ensures 0.0 < (reused * blockSize) as real / |target| as real < 1.0
  {
    BlocksFit(|target|, blockSize, reused);
    MultiplesOrdered(0, reused, blockSize);
    ProperFraction(reused * blockSize, |target|);
  }

  lemma ProperFraction(a: nat, b: nat)
    requires 0 < a < b
    ensures 0.0 < a as real / b as real < 1.0
  {
  }
}
