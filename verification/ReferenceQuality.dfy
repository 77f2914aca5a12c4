/** Reference-answer metrics on normalized token sequences: token recall and ROUGE-L. */
module ReferenceQuality {
  import opened Arithmetic
  import opened Common

  type Tokens = seq<string>

  /** The recurrence behind the rolling rows. */
  function Lcs(l: Tokens, r: Tokens): nat
    decreases |l| + |r|
  {
    if |l| == 0 || |r| == 0 then 0
    else
      var l', r' := l[..|l| - 1], r[..|r| - 1];
      if l[|l| - 1] == r[|r| - 1] then Lcs(l', r') + 1
      else Max(Lcs(l', r), Lcs(l, r'))
  }

  // ---------- what a common subsequence is ----------

  /** `at` picks the positions of `t` that spell `s`, left to right. */
  predicate Embeds(s: Tokens, t: Tokens, at: seq<nat>) {
    && |at| == |s|
    && (forall i :: 0 <= i < |at| ==> at[i] < |t| && t[at[i]] == s[i])
    && (forall i, j :: 0 <= i < j < |at| ==> at[i] < at[j])
  }

  ghost predicate Subsequence(s: Tokens, t: Tokens) {
    exists at :: Embeds(s, t, at)
  }

  ghost predicate CommonSubsequence(s: Tokens, l: Tokens, r: Tokens) {
    Subsequence(s, l) && Subsequence(s, r)
  }

  lemma EmbedsPrefix(s: Tokens, t: Tokens, at: seq<nat>, n: nat)
    requires Embeds(s, t, at) && n <= |s|
    requires n < |s| ==> |t| > 0
    ensures n == |s| && (n > 0 ==> at[n - 1] < |t| - 1) && |t| > 0 ==> Embeds(s, t[..|t| - 1], at)
    ensures n < |s| ==> Embeds(s[..n], t[..|t| - 1], at[..n])
  {
    if n < |s| {
      assert forall i :: 0 <= i < n ==> at[i] < at[n];
    }
  }

  /** Dropping one trailing token costs at most one. */
  lemma {:induction false} LcsDropsByOne(l: Tokens, r: Tokens)
    ensures |l| > 0 ==> Lcs(l[..|l| - 1], r) <= Lcs(l, r) <= Lcs(l[..|l| - 1], r) + 1
    ensures |r| > 0 ==> Lcs(l, r[..|r| - 1]) <= Lcs(l, r) <= Lcs(l, r[..|r| - 1]) + 1
    decreases |l| + |r|
  {
    if |l| == 0 || |r| == 0 {
    } else {
      var l', r' := l[..|l| - 1], r[..|r| - 1];
      LcsDropsByOne(l', r);
      LcsDropsByOne(l, r');
    }
  }

  /** No common subsequence is longer. */
  lemma {:induction false} LcsIsUpperBound(s: Tokens, l: Tokens, r: Tokens, f: seq<nat>, g: seq<nat>)
    requires Embeds(s, l, f) && Embeds(s, r, g)
    ensures |s| <= Lcs(l, r)
    decreases |l| + |r|
  {
    if |s| == 0 {
    } else {
      var n := |s| - 1;
      assert f[n] < |l| && g[n] < |r|;
      var l', r' := l[..|l| - 1], r[..|r| - 1];
      LcsDropsByOne(l, r);
      if f[n] < |l| - 1 {
        EmbedsPrefix(s, l, f, n + 1);
        LcsIsUpperBound(s, l', r, f, g);
      } else if g[n] < |r| - 1 {
        EmbedsPrefix(s, r, g, n + 1);
        LcsIsUpperBound(s, l, r', f, g);
      } else {
        EmbedsPrefix(s, l, f, n);
        EmbedsPrefix(s, r, g, n);
        LcsIsUpperBound(s[..n], l', r', f[..n], g[..n]);
      }
    }
  }

  /** Some common subsequence attains it. */
  lemma {:induction false} LcsIsAttained(l: Tokens, r: Tokens) returns (s: Tokens, f: seq<nat>, g: seq<nat>)
    ensures Embeds(s, l, f) && Embeds(s, r, g) && |s| == Lcs(l, r)
    decreases |l| + |r|
  {
    if |l| == 0 || |r| == 0 {
      s, f, g := [], [], [];
    } else {
      var l', r' := l[..|l| - 1], r[..|r| - 1];
      if l[|l| - 1] == r[|r| - 1] {
        s, f, g := LcsIsAttained(l', r');
        s, f, g := s + [l[|l| - 1]], f + [|l| - 1], g + [|r| - 1];
      } else if Lcs(l', r) >= Lcs(l, r') {
        s, f, g := LcsIsAttained(l', r);
      } else {
        s, f, g := LcsIsAttained(l, r');
      }
    }
  }

  ghost predicate LongestCommon(n: nat, l: Tokens, r: Tokens) {
    && (exists s :: CommonSubsequence(s, l, r) && |s| == n)
    && (forall s :: CommonSubsequence(s, l, r) ==> |s| <= n)
  }

  lemma LcsIsLongestCommon(l: Tokens, r: Tokens)
    ensures LongestCommon(Lcs(l, r), l, r)
  {
    var s, f, g := LcsIsAttained(l, r);
    assert CommonSubsequence(s, l, r);
    forall s | CommonSubsequence(s, l, r) ensures |s| <= Lcs(l, r) {
      var f, g :| Embeds(s, l, f) && Embeds(s, r, g);
      LcsIsUpperBound(s, l, r, f, g);
    }
  }

  /** The rolling-row dynamic program. */
  method LongestCommonSubsequenceLength(left: Tokens, right: Tokens) returns (n: nat)
    ensures n == Lcs(left, right)
    ensures LongestCommon(n, left, right)
  {
    var previous := seq(|right| + 1, _ => 0);
    for i := 0 to |left|
      invariant |previous| == |right| + 1
      invariant forall j :: 0 <= j <= |right| ==> previous[j] == Lcs(left[..i], right[..j])
    {
      var current := [0];
      assert left[..i + 1][..i] == left[..i];
      for j := 1 to |right| + 1
        invariant |current| == j
        invariant forall k :: 0 <= k < j ==> current[k] == Lcs(left[..i + 1], right[..k])
      {
        assert right[..j][..j - 1] == right[..j - 1];
        if left[i] == right[j - 1] {
          current := current + [previous[j - 1] + 1];
        } else {
          current := current + [Max(previous[j], current[j - 1])];
        }
      }
      previous := current;
    }
    assert left[..|left|] == left && right[..|right|] == right;
    LcsIsLongestCommon(left, right);
    return previous[|right|];
  }

  // ---------- symmetry and extremes ----------

  lemma {:induction false} LcsSymmetric(l: Tokens, r: Tokens)
    ensures Lcs(l, r) == Lcs(r, l)
    decreases |l| + |r|
  {
    if |l| == 0 || |r| == 0 {
    } else {
      LcsSymmetric(l[..|l| - 1], r[..|r| - 1]);
      LcsSymmetric(l[..|l| - 1], r);
      LcsSymmetric(l, r[..|r| - 1]);
    }
  }

  lemma {:induction false} LcsBounded(l: Tokens, r: Tokens)
    ensures Lcs(l, r) <= |l| && Lcs(l, r) <= |r|
    decreases |l| + |r|
  {
    if |l| == 0 || |r| == 0 {
    } else {
      LcsBounded(l[..|l| - 1], r[..|r| - 1]);
      LcsBounded(l[..|l| - 1], r);
      LcsBounded(l, r[..|r| - 1]);
    }
  }

  /** The whole of both sequences is common exactly when they are equal. */
  lemma {:induction false} LcsFullIffEqual(l: Tokens, r: Tokens)
    ensures Lcs(l, r) == |l| == |r| <==> l == r
    decreases |l| + |r|
  {
    if |l| == 0 || |r| == 0 {
    } else {
      var l', r' := l[..|l| - 1], r[..|r| - 1];
      LcsFullIffEqual(l', r');
      LcsBounded(l', r);
      LcsBounded(l, r');
      assert l == l' + [l[|l| - 1]] && r == r' + [r[|r| - 1]];
    }
  }

  // ---------- overlap ----------

  function Overlap(l: Tokens, r: Tokens): nat {
    |multiset(l) * multiset(r)|
  }

  lemma {:induction false} EmbeddedMultiset(s: Tokens, t: Tokens, at: seq<nat>)
    requires Embeds(s, t, at)
    ensures multiset(s) <= multiset(t)
    decreases |t|
  {
    if |s| == 0 {
    } else {
      var n := |s| - 1;
      assert at[n] < |t|;
      var t' := t[..|t| - 1];
      assert t == t' + [t[|t| - 1]];
      assert s == s[..n] + [s[n]];
      if at[n] < |t| - 1 {
        EmbedsPrefix(s, t, at, n + 1);
        EmbeddedMultiset(s, t', at);
      } else {
        EmbedsPrefix(s, t, at, n);
        EmbeddedMultiset(s[..n], t', at[..n]);
      }
    }
  }

  /** Ordered agreement never exceeds unordered agreement. */
  lemma LcsAtMostOverlap(l: Tokens, r: Tokens)
    ensures Lcs(l, r) <= Overlap(l, r)
  {
    var s, f, g := LcsIsAttained(l, r);
    EmbeddedMultiset(s, l, f);
    EmbeddedMultiset(s, r, g);
    var both := multiset(l) * multiset(r);
    assert multiset(s) <= both;
    assert both == multiset(s) + (both - multiset(s));
    assert |s| == |multiset(s)|;
  }

  // ---------- scores ----------

  function TokenRecall(prediction: Tokens, reference: Tokens): (r: Result<real>)
    ensures r.Err? <==> reference == []
  {
    if |reference| == 0 then Err("reference answer must contain normalized tokens")
    else Ok(Ratio(Overlap(prediction, reference), |reference|))
  }

  function RougeLF1(prediction: Tokens, reference: Tokens): (r: Result<real>)
    ensures r.Err? <==> reference == []
  {
    if |reference| == 0 then Err("reference answer must contain normalized tokens")
    else if |prediction| == 0 then Ok(0.0)
    else
      var common := Lcs(prediction, reference);
      if common == 0 then Ok(0.0) else Ok(F1(common, |prediction|, |reference|))
  }

  /** The harmonic mean of precision and recall of `common` shared tokens. */
  function F1(common: nat, predicted: nat, expected: nat): real
    requires common > 0 && predicted > 0 && expected > 0
  {
    var precision := common as real / predicted as real;
    var recall := common as real / expected as real;
    Positive(common, predicted);
    Positive(common, expected);
    2.0 * precision * recall / (precision + recall)
  }

  lemma Positive(a: nat, b: nat)
    requires a > 0 && b > 0
    ensures a as real / b as real > 0.0
  {
  }

  lemma HarmonicMean(c: real, m: real, n: real)
    requires c > 0.0 && m > 0.0 && n > 0.0
    ensures c / m + c / n > 0.0
    ensures 2.0 * (c / m) * (c / n) / (c / m + c / n) == 2.0 * c / (m + n)
  {
    var p, q := c / m, c / n;
    assert p * m == c && q * n == c;
    assert p > 0.0 && q > 0.0;
    assert 2.0 * p * q * (m + n) == 2.0 * (p * m) * q + 2.0 * p * (q * n);
    assert 2.0 * p * q * (m + n) == 2.0 * c * (p + q);
    DivisionSwap(2.0 * p * q, p + q, 2.0 * c, m + n);
  }

  lemma DivisionSwap(a: real, b: real, c: real, d: real)
    requires b > 0.0 && d > 0.0 && a * d == c * b
    ensures a / b == c / d
  {
    var x := a / b;
    assert x * b == a;
    assert x * b * d == c * b;
    assert (x * d - c) * b == 0.0;
    assert x * d == c;
  }

  /** The reported F1 scales the tokens of both sides to twice their longest common subsequence. */
  lemma DiceScales(common: nat, m: nat, n: nat, f1: real)
    requires common <= m && common <= n && m + n > 0
    ensures f1 == Dice(common, m, n) <==> f1 * (m + n) as real == (2 * common) as real
  {
    RatioScales(2 * common, m + n, f1);
  }

  /** The reported F1 is the Dice form of the longest common subsequence, and what follows from it. */
  lemma RougeLF1Is(prediction: Tokens, reference: Tokens)
    requires |reference| > 0
    ensures RougeLF1(prediction, reference) == Ok(Dice(Lcs(prediction, reference), |prediction|, |reference|))
    ensures 0.0 <= RougeLF1(prediction, reference).value <= 1.0
    ensures RougeLF1(prediction, reference).value == 1.0 <==> prediction == reference
    ensures |prediction| > 0 ==> RougeLF1(reference, prediction) == RougeLF1(prediction, reference)
  {
    LcsBounded(prediction, reference);
    LcsFullIffEqual(prediction, reference);
    LcsSymmetric(prediction, reference);
    RougeLF1IsDice(prediction, reference);
    if |prediction| > 0 {
      RougeLF1IsDice(reference, prediction);
    }
    DiceBounds(Lcs(prediction, reference), |prediction|, |reference|);
  }

  function Dice(common: nat, m: nat, n: nat): real
    requires m + n > 0
  {
    Ratio(2 * common, m + n)
  }

  lemma ZeroDice(m: nat, n: nat)
    requires m + n > 0
    ensures Dice(0, m, n) == 0.0
  {
  }

  lemma {:induction false} RougeLF1IsDice(prediction: Tokens, reference: Tokens)
    requires |reference| > 0
    ensures RougeLF1(prediction, reference) == Ok(Dice(Lcs(prediction, reference), |prediction|, |reference|))
  {
    var c, m, n := Lcs(prediction, reference), |prediction|, |reference|;
    LcsBounded(prediction, reference);
    if c > 0 {
      F1IsDice(c, m, n);
    } else {
      ZeroDice(m, n);
    }
  }

  lemma F1IsDice(c: nat, m: nat, n: nat)
    requires c > 0 && m > 0 && n > 0
    ensures F1(c, m, n) == Dice(c, m, n)
  {
    HarmonicMean(c as real, m as real, n as real);
    assert 2.0 * c as real == (2 * c) as real && m as real + n as real == (m + n) as real;
  }

  lemma DiceBounds(c: nat, m: nat, n: nat)
    requires c <= m && c <= n && m + n > 0
    ensures 0.0 <= Dice(c, m, n) <= 1.0
    ensures Dice(c, m, n) == 1.0 <==> c == m == n
    ensures Dice(c, m, n) == Dice(c, n, m)
  {
    UnitRatio(2 * c, m + n);
  }

  /** Scaled by the reference, token recall is the size of the largest multiset that both answers contain: ... */
  lemma RecallIsAttained(prediction: Tokens, reference: Tokens) returns (m: multiset<string>)
    requires reference != []
    ensures m <= multiset(prediction) && m <= multiset(reference)
    ensures TokenRecall(prediction, reference).value * |reference| as real == |m| as real
  {
    m := multiset(prediction) * multiset(reference);
    RecallScales(prediction, reference, m);
  }

  lemma RecallScales(prediction: Tokens, reference: Tokens, m: multiset<string>)
    requires reference != [] && m == multiset(prediction) * multiset(reference)
    ensures TokenRecall(prediction, reference).value * |reference| as real == |m| as real
  {
    var part, whole, recall := |m|, |reference|, TokenRecall(prediction, reference).value;
    assert recall == Ratio(part, whole) && part <= whole by {
      SharedFits(prediction, reference, m);
    }
    RatioTimes(part, whole, recall);
  }

  /** ... no multiset of tokens that both contain is larger. */
  lemma RecallIsUpperBound(prediction: Tokens, reference: Tokens, m: multiset<string>)
    requires reference != [] && m <= multiset(prediction) && m <= multiset(reference)
    ensures |m| as real <= TokenRecall(prediction, reference).value * |reference| as real
  {
    SharedFits(prediction, reference, m);
    RecallScales(prediction, reference, multiset(prediction) * multiset(reference));
  }

  lemma SharedFits(prediction: Tokens, reference: Tokens, m: multiset<string>)
    requires m <= multiset(prediction) && m <= multiset(reference)
    ensures |m| <= |multiset(prediction) * multiset(reference)| <= |reference|
  {
    var both := multiset(prediction) * multiset(reference);
    assert m <= both <= multiset(reference);
    assert both == m + (both - m);
    assert multiset(reference) == both + (multiset(reference) - both);
    assert |multiset(reference)| == |reference|;
  }

  /** The extremes: everything recovered, and nothing shared. */
  lemma RecallExtremes(prediction: Tokens, reference: Tokens, recall: real)
    requires Ok(recall) == TokenRecall(prediction, reference)
    ensures 0.0 <= recall <= 1.0
    ensures recall == 1.0 <==> multiset(reference) <= multiset(prediction)
    ensures recall == 0.0 <==> forall t :: t in reference ==> t !in prediction
  {
    var p, r := multiset(prediction), multiset(reference);
    var both := p * r;
    SharedFits(prediction, reference, both);
    RatioRange(|both|, |reference|);
    assert |r| == |reference|;
    assert r == both + (r - both);
    assert |r - both| == 0 <==> r == both;
    assert r == both <==> r <= p;
    NothingShared(prediction, reference);
  }

  lemma NothingShared(prediction: Tokens, reference: Tokens)
    ensures |multiset(prediction) * multiset(reference)| == 0 <==> forall t :: t in reference ==> t !in prediction
  {
    var both := multiset(prediction) * multiset(reference);
    assert |both| == 0 <==> both == multiset{};
    if both == multiset{} {
      forall t | t in reference ensures t !in prediction {
        assert t !in both;
      }
    } else {
      var t :| t in both;
      assert t in multiset(prediction) && t in multiset(reference);
      assert t in prediction && t in reference;
    }
  }

  /** ROUGE-L recall is at most token recall, which is at most one. */
  lemma RecallOrder(prediction: Tokens, reference: Tokens)
    requires |reference| > 0
    ensures Lcs(prediction, reference) as real / |reference| as real <= TokenRecall(prediction, reference).value <= 1.0
  {
    LcsAtMostOverlap(prediction, reference);
    SharedFits(prediction, reference, multiset(prediction) * multiset(reference));
    RatioMonotone(Lcs(prediction, reference), Overlap(prediction, reference), |reference|);
    UnitRatio(Overlap(prediction, reference), |reference|);
  }
}
