/** Shared prefix and suffix of two prompts, counted by the loops that several source files repeat. */
module TokenEdges {
  type Token = int
  type Prompt = seq<Token>

  function Min(a: nat, b: nat): nat {
    if a <= b then a else b
  }

  /** The first and the last `n` tokens of a prompt. */
  function Head(t: Prompt, n: nat): Prompt
    requires n <= |t|
  {
    t[..n]
  }

  function Tail(t: Prompt, n: nat): Prompt
    requires n <= |t|
  {
    t[|t| - n..]
  }

  /** Identical leading tokens, given that the first `n` agree. */
  function PrefixFrom(l: Prompt, r: Prompt, n: nat): (p: nat)
    requires n <= |l| && n <= |r| && Head(l, n) == Head(r, n)
    ensures n <= p <= |l| && p <= |r| && Head(l, p) == Head(r, p)
    ensures p < |l| && p < |r| ==> l[p] != r[p]
    decreases |l| - n
  {
    if n < |l| && n < |r| && l[n] == r[n] then
      assert Head(l, n + 1) == Head(l, n) + [l[n]] && Head(r, n + 1) == Head(r, n) + [r[n]];
      PrefixFrom(l, r, n + 1)
    else n
  }

  function SharedPrefix(l: Prompt, r: Prompt): (p: nat)
    ensures p <= |l| && p <= |r|
  {
    PrefixFrom(l, r, 0)
  }

  /** Identical trailing tokens up to `limit`, given that the last `n` agree. */
  function SuffixFrom(l: Prompt, r: Prompt, limit: nat, n: nat): (s: nat)
    requires n <= limit <= |l| && limit <= |r| && Tail(l, n) == Tail(r, n)
    ensures n <= s <= limit && Tail(l, s) == Tail(r, s)
    ensures s < limit ==> l[|l| - 1 - s] != r[|r| - 1 - s]
    decreases limit - n
  {
    if n < limit && l[|l| - 1 - n] == r[|r| - 1 - n] then
      assert Tail(l, n + 1) == [l[|l| - 1 - n]] + Tail(l, n) && Tail(r, n + 1) == [r[|r| - 1 - n]] + Tail(r, n);
      SuffixFrom(l, r, limit, n + 1)
    else n
  }

  /** The shared suffix in the room that a prefix leaves. */
  function SharedSuffix(l: Prompt, r: Prompt, prefix: nat): (s: nat)
    requires prefix <= Min(|l|, |r|)
    ensures prefix + s <= |l| && prefix + s <= |r|
  {
    SuffixFrom(l, r, Min(|l|, |r|) - prefix, 0)
  }

  function Suffix(l: Prompt, r: Prompt): nat {
    SharedSuffix(l, r, SharedPrefix(l, r))
  }

  method CommonPrefixLength(left: Prompt, right: Prompt) returns (count: nat)
    ensures count == SharedPrefix(left, right)
  {
    count := 0;
    while count < |left| && count < |right| && left[count] == right[count]
      invariant count <= |left| && count <= |right| && Head(left, count) == Head(right, count)
      invariant PrefixFrom(left, right, count) == SharedPrefix(left, right)
    {
      assert Head(left, count + 1) == Head(left, count) + [left[count]];
      assert Head(right, count + 1) == Head(right, count) + [right[count]];
      count := count + 1;
    }
  }

  method CommonSuffixLength(left: Prompt, right: Prompt, prefix: nat) returns (count: nat)
    requires prefix <= Min(|left|, |right|)
    ensures count == SharedSuffix(left, right, prefix)
  {
    var available := Min(|left|, |right|) - prefix;
    count := 0;
    while count < available && left[|left| - 1 - count] == right[|right| - 1 - count]
      invariant count <= available && Tail(left, count) == Tail(right, count)
      invariant SuffixFrom(left, right, available, count) == SharedSuffix(left, right, prefix)
    {
      assert Tail(left, count + 1) == [left[|left| - 1 - count]] + Tail(left, count);
      assert Tail(right, count + 1) == [right[|right| - 1 - count]] + Tail(right, count);
      count := count + 1;
    }
  }

  /** Every shared prefix is part of the longest one, and likewise for suffixes. */
  lemma PrefixIsLongest(l: Prompt, r: Prompt, n: nat)
    requires n <= |l| && n <= |r| && Head(l, n) == Head(r, n)
    ensures n <= SharedPrefix(l, r)
  {
    assert forall i :: 0 <= i < n ==> l[i] == Head(l, n)[i] && r[i] == Head(r, n)[i];
  }

  lemma SuffixIsLongest(l: Prompt, r: Prompt, prefix: nat, n: nat)
    requires prefix + n <= Min(|l|, |r|) && Tail(l, n) == Tail(r, n)
    ensures n <= SharedSuffix(l, r, prefix)
  {
    assert forall i :: 0 <= i < n ==> l[|l| - n + i] == Tail(l, n)[i] && r[|r| - n + i] == Tail(r, n)[i];
  }

  /** Among all ways to split off a shared prefix and suffix that do not overlap, the loops remove the most. */
  lemma EdgesAreLargest(l: Prompt, r: Prompt, prefix: nat, suffix: nat)
    requires prefix + suffix <= Min(|l|, |r|)
    requires Head(l, prefix) == Head(r, prefix) && Tail(l, suffix) == Tail(r, suffix)
    ensures prefix + suffix <= SharedPrefix(l, r) + Suffix(l, r)
  {
    PrefixIsLongest(l, r, prefix);
    var room := Min(|l|, |r|) - SharedPrefix(l, r);
    var part := Min(suffix, room);
    assert Tail(l, part) == Tail(l, suffix)[suffix - part..] && Tail(r, part) == Tail(r, suffix)[suffix - part..];
    SuffixIsLongest(l, r, SharedPrefix(l, r), part);
  }
}
