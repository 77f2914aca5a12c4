/** Failure-carrying results shared by the models of the individual source files. */
module Common {
  /** A value, or the reason the source gives when it raises. */
  datatype Result<+T> = Ok(value: T) | Err(reason: string)

  datatype Option<+T> = None | Some(value: T)

  predicate NoDuplicates<T(==)>(s: seq<T>) {
    forall i, j :: 0 <= i < j < |s| ==> s[i] != s[j]
  }

  predicate Increasing(s: seq<int>) {
    forall a, b :: 0 <= a < b < |s| ==> s[a] < s[b]
  }

  function Max(a: nat, b: nat): nat {
    if a < b then b else a
  }

  function Elements<T>(s: seq<T>): set<T> {
    set x | x in s
  }

  lemma ElementsSubset<T>(a: seq<T>, b: seq<T>)
    ensures Elements(a) <= Elements(b) <==> forall x :: x in a ==> x in b
  {
    assert forall x :: x in a <==> x in Elements(a);
    assert forall x :: x in b <==> x in Elements(b);
    if forall x :: x in a ==> x in b {
      forall x | x in Elements(a) ensures x in Elements(b) {
      }
    }
  }

  /** A duplicate-free sequence has as many elements as positions. */
  lemma {:induction false} DistinctCardinality<T>(s: seq<T>)
    ensures |Elements(s)| <= |s|
    ensures NoDuplicates(s) <==> |Elements(s)| == |s|
  {
    if s == [] {
    } else {
      var front, last := s[..|s| - 1], s[|s| - 1];
      assert Elements(s) == Elements(front) + {last};
      assert s == front + [last];
      DistinctCardinality(front);
      if last in front {
        var i :| 0 <= i < |front| && front[i] == last;
        assert s[i] == s[|s| - 1];
        assert Elements(s) == Elements(front);
      } else {
        assert |Elements(s)| == |Elements(front)| + 1;
        if NoDuplicates(front) {
          assert NoDuplicates(s);
        } else {
          var i, j :| 0 <= i < j < |front| && front[i] == front[j];
          assert s[i] == s[j];
        }
      }
    }
  }

  /** The positions of a sequence whose element has a property. */
  ghost function Where<T(!new)>(s: seq<T>, p: T -> bool): set<nat> {
    set i: nat | i < |s| && p(s[i])
  }

  /** Counting from the end: one position more if the last element has the property. */
  lemma WhereLast<T(!new)>(s: seq<T>, p: T -> bool)
    requires |s| > 0
    ensures |Where(s, p)| == |Where(s[..|s| - 1], p)| + if p(s[|s| - 1]) then 1 else 0
  {
    var n := |s| - 1;
    assert Where(s, p) == Where(s[..n], p) + if p(s[n]) then {n} else {};
  }

  /** Counting from the front. */
  lemma {:induction false} WhereFirst<T(!new)>(s: seq<T>, p: T -> bool)
    requires |s| > 0
    ensures |Where(s, p)| == |Where(s[1..], p)| + if p(s[0]) then 1 else 0
  {
    WhereLast(s, p);
    if |s| > 1 {
      var n := |s| - 1;
      assert s[1..][..n - 1] == s[..n][1..];
      WhereFirst(s[..n], p);
      WhereLast(s[1..], p);
    } else {
      assert Where(s[1..], p) == {} == Where(s[..0], p);
    }
  }

  /** The positions, in order, of the elements with a property. */
  ghost predicate Selects<T(!new)>(at: seq<nat>, s: seq<T>, p: T -> bool) {
    Increasing(at) && forall i: nat :: i in at <==> i < |s| && p(s[i])
  }

  lemma SelectsNext<T(!new)>(at: seq<nat>, s: seq<T>, p: T -> bool)
    requires |s| > 0 && Selects(at, s[..|s| - 1], p)
    ensures Selects(at + if p(s[|s| - 1]) then [|s| - 1] else [], s, p)
  {
    assert forall k :: 0 <= k < |at| ==> at[k] in at;
  }

  /** The sum of a list of counts. */
  function Sum(counts: seq<nat>): nat {
    if |counts| == 0 then 0 else Sum(counts[..|counts| - 1]) + counts[|counts| - 1]
  }

  /** The numbers from `lo` up to `hi`, as many as the interval is long. */
  ghost function Interval(lo: nat, hi: nat): (r: set<nat>)
    ensures forall t: nat :: t in r <==> lo <= t < hi
    ensures |r| == if lo <= hi then hi - lo else 0
    decreases hi
  {
    if hi <= lo then {} else Interval(lo, hi - 1) + {hi - 1}
  }

  /** Intervals in order, given by their ends. */
  ghost predicate InOrder(lo: seq<nat>, hi: seq<nat>) {
    && |lo| == |hi| && (forall i :: 0 <= i < |lo| ==> lo[i] <= hi[i])
    && forall i, j :: 0 <= i < j < |lo| ==> hi[i] <= lo[j]
  }

  ghost predicate Within(lo: seq<nat>, hi: seq<nat>, t: nat)
    requires |lo| == |hi|
  {
    exists i :: 0 <= i < |lo| && lo[i] <= t < hi[i]
  }

  function Width(lo: seq<nat>, hi: seq<nat>): int
    requires |lo| == |hi|
  {
    if |lo| == 0 then 0 else Width(lo[..|lo| - 1], hi[..|lo| - 1]) + hi[|lo| - 1] - lo[|lo| - 1]
  }

  /** Ordered intervals are as wide together as they have positions. */
  lemma {:induction false} WidthIsPositions(lo: seq<nat>, hi: seq<nat>, all: set<nat>)
    requires InOrder(lo, hi) && forall t: nat :: t in all <==> Within(lo, hi, t)
    ensures Width(lo, hi) == |all|
    decreases |lo|
  {
    if |lo| == 0 {
      assert all == {};
    } else {
      var n := |lo| - 1;
      var last := Interval(lo[n], hi[n]);
      forall t: nat ensures t in all - last <==> Within(lo[..n], hi[..n], t) {
        WithinLast(lo, hi, t);
      }
      WidthIsPositions(lo[..n], hi[..n], all - last);
      forall t: nat | t in last ensures t in all {
        WithinLast(lo, hi, t);
      }
      assert all == (all - last) + last;
    }
  }

  lemma WithinLast(lo: seq<nat>, hi: seq<nat>, t: nat)
    requires InOrder(lo, hi) && |lo| > 0
    ensures var n := |lo| - 1;
      && (Within(lo, hi, t) <==> Within(lo[..n], hi[..n], t) || lo[n] <= t < hi[n])
      && !(Within(lo[..n], hi[..n], t) && lo[n] <= t)
  {
    var n := |lo| - 1;
    if Within(lo[..n], hi[..n], t) {
      var i :| 0 <= i < n && lo[..n][i] <= t < hi[..n][i];
      assert lo[i] <= t < hi[i];
    }
    if Within(lo, hi, t) {
      var i :| 0 <= i <= n && lo[i] <= t < hi[i];
      assert i < n ==> lo[..n][i] <= t < hi[..n][i];
    }
  }

  /** Lexicographic order of strings. */
  predicate Less(a: string, b: string) {
    |b| > 0 && (|a| == 0 || a[0] < b[0] || (a[0] == b[0] && Less(a[1..], b[1..])))
  }

  /** The order is decided by the first difference, and a proper prefix comes first. */
  lemma {:induction false} LessMeaning(a: string, b: string, k: nat)
    requires k <= |a| && k <= |b| && a[..k] == b[..k]
    requires (k == |a| || k == |b|) || a[k] != b[k]
    ensures Less(a, b) <==> k < |b| && (k == |a| || a[k] < b[k])
    decreases k
  {
    if k > 0 {
      assert a[0] == a[..k][0] == b[..k][0] == b[0];
      assert a[1..][..k - 1] == a[..k][1..] && b[1..][..k - 1] == b[..k][1..];
      LessMeaning(a[1..], b[1..], k - 1);
    }
  }

  lemma {:induction false} LessIsTotal(a: string, b: string)
    ensures !(Less(a, b) && Less(b, a))
    ensures a == b || Less(a, b) || Less(b, a)
    ensures !Less(a, a)
  {
    if |a| > 0 && |b| > 0 {
      LessIsTotal(a[1..], b[1..]);
      assert a == [a[0]] + a[1..] && b == [b[0]] + b[1..];
    }
    if |a| == 0 {
    } else {
      NotLessSelf(a);
    }
  }

  lemma {:induction false} LessTransitive(a: string, b: string, c: string)
    requires Less(a, b) && Less(b, c)
    ensures Less(a, c)
  {
    if |a| > 0 && a[0] == b[0] == c[0] {
      LessTransitive(a[1..], b[1..], c[1..]);
    }
  }

  lemma {:induction false} NotLessSelf(a: string)
    ensures !Less(a, a)
  {
    if |a| == 0 {
    } else {
      NotLessSelf(a[1..]);
    }
  }
}
