/**
 Gated DeltaNet state edits over the reals.

 One head at a time a state is a matrix whose rows evolve independently, so the
 recurrence is modelled on rows first and lifted to whole tensors afterwards.
 */
module DeltaRows {
  type Vec = seq<real>
  type Mat = seq<Vec>

  /** Coefficients one value head sees for one token; `decay` stands for `exp(log_decay)`. */
  datatype Token = Token(key: Vec, query: Vec, decay: real, beta: real)

  predicate Rows(m: Mat, width: nat) {
    forall i :: 0 <= i < |m| ==> |m[i]| == width
  }

  predicate TokensOf(ts: seq<Token>, width: nat) {
    forall t :: 0 <= t < |ts| ==> |ts[t].key| == width && |ts[t].query| == width
  }

  // ---------- vectors ----------

  /** Multiplication as a function symbol, which the solver treats as a congruence. */
  function Times(a: real, b: real): real {
    a * b
  }

  function Scale(c: real, x: Vec): (y: Vec)
    ensures |y| == |x|
  {
    seq(|x|, i requires 0 <= i < |x| => Times(c, x[i]))
  }

  function Add(x: Vec, y: Vec): (z: Vec)
    requires |x| == |y|
    ensures |z| == |x|
  {
    seq(|x|, i requires 0 <= i < |x| => x[i] + y[i])
  }

  function Sub(x: Vec, y: Vec): (z: Vec)
    requires |x| == |y|
    ensures |z| == |x|
  {
    seq(|x|, i requires 0 <= i < |x| => x[i] - y[i])
  }

  function Zero(n: nat): (z: Vec)
    ensures |z| == n
  {
    seq(n, _ => 0.0)
  }

  /** Row `k` of the identity matrix. */
  function Unit(n: nat, k: nat): (u: Vec)
    ensures |u| == n
  {
    seq(n, i => if i == k then 1.0 else 0.0)
  }

  function Dot(x: Vec, y: Vec): real
    requires |x| == |y|
  {
    if |x| == 0 then 0.0 else Times(x[0], y[0]) + Dot(x[1..], y[1..])
  }

  function Column(m: Mat, width: nat, l: nat): (c: Vec)
    requires Rows(m, width) && l < width
    ensures |c| == |m|
  {
    seq(|m|, i requires 0 <= i < |m| => m[i][l])
  }

  /** The einsum `k,kl->l`: a row vector times a matrix. */
  function VecMat(x: Vec, m: Mat, width: nat): (y: Vec)
    requires |x| == |m| && Rows(m, width)
    ensures |y| == width
  {
    seq(width, l requires 0 <= l < width => Dot(x, Column(m, width, l)))
  }

  /** The einsum `kl,l->k`: a matrix times a column vector. */
  function MatVec(m: Mat, x: Vec): (y: Vec)
    requires Rows(m, |x|)
    ensures |y| == |m|
  {
    seq(|m|, i requires 0 <= i < |m| => Dot(m[i], x))
  }

  function MatMul(a: Mat, b: Mat, width: nat): (c: Mat)
    requires Rows(a, |b|) && Rows(b, width)
    ensures |c| == |a| && Rows(c, width)
  {
    seq(|a|, i requires 0 <= i < |a| => VecMat(a[i], b, width))
  }

  // ---------- the recurrence on one row ----------

  /** `gdn_state_delta_step` on one row of one head. */
  function StepRow(row: Vec, t: Token): (next: Vec)
    requires |row| == |t.key|
    ensures |next| == |row|
  {
    var decayed := Scale(t.decay, row);
    var read := Dot(decayed, t.key);
    Sub(decayed, Scale(Times(t.beta, read), t.key))
  }

  /** The rank-one update `build_gdn_block_delta_operator` applies to one transition row. */
  function RankOneRow(row: Vec, t: Token): (next: Vec)
    requires |row| == |t.key|
    ensures |next| == |row|
  {
    var read := Dot(row, t.key);
    Scale(t.decay, Sub(row, Scale(Times(t.beta, read), t.key)))
  }

  /** The full recurrence on one row, with the value entry `v` this row is asked to store. */
  function FullStepRow(row: Vec, t: Token, v: real): (next: Vec)
    requires |row| == |t.key|
    ensures |next| == |row|
  {
    var decayed := Scale(t.decay, row);
    var residual := v - Dot(decayed, t.key);
    Add(decayed, Scale(Times(t.beta, residual), t.key))
  }

  /** Token-by-token propagation of one row. */
  function RunRow(row: Vec, ts: seq<Token>): (last: Vec)
    requires TokensOf(ts, |row|)
    ensures |last| == |row|
    decreases |ts|
  {
    if |ts| == 0 then row else StepRow(RunRow(row, ts[..|ts| - 1]), ts[|ts| - 1])
  }

  function FullRunRow(row: Vec, ts: seq<Token>, vs: seq<real>): (last: Vec)
    requires TokensOf(ts, |row|) && |vs| == |ts|
    ensures |last| == |row|
    decreases |ts|
  {
    if |ts| == 0 then row
    else FullStepRow(FullRunRow(row, ts[..|ts| - 1], vs[..|ts| - 1]), ts[|ts| - 1], vs[|ts| - 1])
  }

  /** What a query reads from a row, scaled. */
  function Output(row: Vec, query: Vec, scale: real): real
    requires |row| == |query|
  {
    Times(Dot(row, query), scale)
  }

  /** The output effect of a row right after token `t`. */
  function OutputRow(row: Vec, ts: seq<Token>, t: nat, scale: real): real
    requires TokensOf(ts, |row|) && t < |ts|
  {
    Output(RunRow(row, ts[..t + 1]), ts[t].query, scale)
  }

  /** The cached response of one head to a block: transition matrix and output responses. */
  function Transition(ts: seq<Token>, width: nat): (m: Mat)
    requires TokensOf(ts, width)
    ensures |m| == width && Rows(m, width)
  {
    seq(width, k requires 0 <= k < width => RunRow(Unit(width, k), ts))
  }

  function Responses(ts: seq<Token>, width: nat, scale: real): (r: seq<Vec>)
    requires TokensOf(ts, width)
    ensures |r| == |ts| && Rows(r, width)
  {
    seq(|ts|, t requires 0 <= t < |ts| =>
      seq(width, k requires 0 <= k < width => OutputRow(Unit(width, k), ts, t, scale)))
  }

  // ---------- linear algebra ----------

  /** The combination `sum_i c[i] * rows[i]`, one row at a time. */
  function Combination(c: Vec, rows: Mat, width: nat): (y: Vec)
    requires |c| == |rows| && Rows(rows, width)
    ensures |y| == width
  {
    if |c| == 0 then Zero(width)
    else Add(Scale(c[0], rows[0]), Combination(c[1..], rows[1..], width))
  }

  // Reads are passed in as parameters: the solver relates products of plain reals far more
  // reliably than products of recursive calls.
  lemma {:induction false} DotLinear(a: real, x: Vec, y: Vec, z: Vec, dx: real, dy: real)
    requires |x| == |y| == |z|
    requires dx == Dot(x, z) && dy == Dot(y, z)
    ensures Dot(Add(Scale(a, x), y), z) == a * dx + dy
  {
    if |x| == 0 {
    } else {
      var s := Add(Scale(a, x), y);
      var s' := Add(Scale(a, x[1..]), y[1..]);
      assert s[1..] == s' by {
        forall i | 0 <= i < |s'| ensures s[1..][i] == s'[i] {
          assert s[i + 1] == a * x[i + 1] + y[i + 1];
          assert x[1..][i] == x[i + 1] && y[1..][i] == y[i + 1];
        }
      }
      var d, e := Dot(x[1..], z[1..]), Dot(y[1..], z[1..]);
      DotLinear(a, x[1..], y[1..], z[1..], d, e);
      DotArithmetic(a, s[0], x[0], y[0], z[0], d, e, dx, dy);
    }
  }

  lemma DotArithmetic(a: real, s: real, x: real, y: real, z: real, d: real, e: real, dx: real,
                      dy: real)
    requires s == a * x + y && dx == x * z + d && dy == y * z + e
    ensures s * z + (a * d + e) == a * dx + dy
  {
    assert s * z == a * (x * z) + y * z;
    assert a * dx == a * (x * z) + a * d;
  }

  lemma {:induction false} DotZero(z: Vec)
    ensures Dot(Zero(|z|), z) == 0.0
  {
    if |z| == 0 {
    } else {
      assert Zero(|z|)[1..] == Zero(|z| - 1);
      DotZero(z[1..]);
    }
  }

  lemma {:induction false} DotScale(a: real, x: Vec, z: Vec, d: real)
    requires |x| == |z| && d == Dot(x, z)
    ensures Dot(Scale(a, x), z) == a * d
  {
    assert Add(Scale(a, x), Zero(|x|)) == Scale(a, x);
    DotZero(z);
    DotLinear(a, x, Zero(|x|), z, d, 0.0);
  }

  /** The einsum and the row combination are the same sum, read in two orders. */
  lemma {:induction false} VecMatIsCombination(x: Vec, m: Mat, width: nat)
    requires |x| == |m| && Rows(m, width)
    ensures VecMat(x, m, width) == Combination(x, m, width)
  {
    if |x| == 0 {
    } else {
      var rest := VecMat(x[1..], m[1..], width);
      VecMatIsCombination(x[1..], m[1..], width);
      forall l | 0 <= l < width
        ensures VecMat(x, m, width)[l] == Combination(x, m, width)[l]
      {
        assert Column(m, width, l)[1..] == Column(m[1..], width, l);
        assert rest[l] == Dot(x[1..], Column(m[1..], width, l));
      }
    }
  }

  /** Exchange of the two sums: reading a combination is combining the reads. */
  lemma {:induction false} DotCombination(c: Vec, rows: Mat, z: Vec)
    requires |c| == |rows| && Rows(rows, |z|)
    ensures Dot(Combination(c, rows, |z|), z) == Dot(c, MatVec(rows, z))
  {
    if |c| == 0 {
      DotZero(z);
    } else {
      var rest := Combination(c[1..], rows[1..], |z|);
      DotCombination(c[1..], rows[1..], z);
      DotLinear(c[0], rows[0], rest, z, Dot(rows[0], z), Dot(rest, z));
      MatVecTail(rows, z);
    }
  }

  lemma {:induction false} MatVecTail(rows: Mat, z: Vec)
    requires Rows(rows, |z|) && |rows| > 0
    ensures MatVec(rows, z)[0] == Dot(rows[0], z) && MatVec(rows, z)[1..] == MatVec(rows[1..], z)
  {
  }

  // ---------- linearity of the recurrence ----------

  lemma ScaleLinear(g: real, a: real, x: Vec, y: Vec)
    requires |x| == |y|
    ensures Scale(g, Add(Scale(a, x), y)) == Add(Scale(a, Scale(g, x)), Scale(g, y))
  {
    var s := Add(Scale(a, x), y);
    var left, right := Scale(g, s), Add(Scale(a, Scale(g, x)), Scale(g, y));
    forall i | 0 <= i < |x| ensures left[i] == right[i] {
      ScaleArithmetic(g, a, x[i], y[i], s[i], Scale(g, x)[i]);
    }
  }

  lemma ScaleArithmetic(g: real, a: real, x: real, y: real, s: real, gx: real)
    requires s == a * x + y && gx == g * x
    ensures g * s == a * gx + g * y
  {
    assert a * gx == g * (a * x);
  }

  /** Subtracting a multiple of `k` from a combination, term by term. */
  lemma CorrectionLinear(a: real, x: Vec, y: Vec, k: Vec, c: real, d: real, cd: real)
    requires |x| == |y| == |k| && cd == a * c + d
    ensures Sub(Add(Scale(a, x), y), Scale(cd, k)) == Add(Scale(a, Sub(x, Scale(c, k))), Sub(y, Scale(d, k)))
  {
    var left, right := Sub(Add(Scale(a, x), y), Scale(cd, k)), Add(Scale(a, Sub(x, Scale(c, k))), Sub(y, Scale(d, k)));
    forall i | 0 <= i < |x| ensures left[i] == right[i] {
      CorrectionArithmetic(a, x[i], k[i], c, d, cd, Sub(x, Scale(c, k))[i]);
    }
  }

  lemma CorrectionArithmetic(a: real, x: real, k: real, c: real, d: real, cd: real, p: real)
    requires cd == a * c + d && p == x - c * k
    ensures a * x - cd * k == a * p - d * k
  {
    assert cd * k == a * (c * k) + d * k;
    assert a * p == a * x - a * (c * k);
  }

  /** One step is linear in the row. */
  lemma StepLinear(a: real, x: Vec, y: Vec, t: Token)
    requires |x| == |y| == |t.key|
    ensures StepRow(Add(Scale(a, x), y), t) == Add(Scale(a, StepRow(x, t)), StepRow(y, t))
  {
    var dx, dy := Scale(t.decay, x), Scale(t.decay, y);
    var rx, ry := Dot(dx, t.key), Dot(dy, t.key);
    ScaleLinear(t.decay, a, x, y);
    DotLinear(a, dx, dy, t.key, rx, ry);
    var rs := a * rx + ry;
    TimesLinear(t.beta, a, rx, ry, rs);
    CorrectionLinear(a, dx, dy, t.key, Times(t.beta, rx), Times(t.beta, ry), Times(t.beta, rs));
  }

  /**
   What a step does to every read: along `u` the row decays, and the part of `u` along the key loses
   `beta` times what the decayed row held there. A direction orthogonal to the key only decays.
   */
  lemma {:induction false} StepProbe(row: Vec, t: Token, u: Vec)
    requires |row| == |t.key| == |u|
    ensures var stored := Times(t.decay, Dot(row, t.key));
      Dot(StepRow(row, t), u) == Times(t.decay, Dot(row, u)) - Times(Times(t.beta, stored), Dot(t.key, u))
  {
    ScaledRead(t.decay, row, t.key);
    ScaledRead(t.decay, row, u);
    CorrectedRead(Scale(t.decay, row), t.key, Times(t.beta, Times(t.decay, Dot(row, t.key))), u);
  }

  /** The full step writes as well: the key gains a share `beta` of what `v` exceeds the decayed read by. */
  lemma {:induction false} FullStepProbe(row: Vec, t: Token, v: real, u: Vec)
    requires |row| == |t.key| == |u|
    ensures var stored := Times(t.decay, Dot(row, t.key));
      Dot(FullStepRow(row, t, v), u) == Times(t.decay, Dot(row, u)) + Times(Times(t.beta, v - stored), Dot(t.key, u))
  {
    ScaledRead(t.decay, row, t.key);
    ScaledRead(t.decay, row, u);
    WrittenRead(Scale(t.decay, row), t.key, Times(t.beta, v - Times(t.decay, Dot(row, t.key))), u);
  }

  lemma {:induction false} ScaledRead(g: real, x: Vec, u: Vec)
    requires |x| == |u|
    ensures Dot(Scale(g, x), u) == Times(g, Dot(x, u))
  {
    DotScale(g, x, u, Dot(x, u));
  }

  lemma {:induction false} WrittenRead(x: Vec, k: Vec, c: real, u: Vec)
    requires |x| == |k| == |u|
    ensures Dot(Add(x, Scale(c, k)), u) == Dot(x, u) + Times(c, Dot(k, u))
  {
    DotLinear(c, k, x, u, Dot(k, u), Dot(x, u));
    assert Add(x, Scale(c, k)) == Add(Scale(c, k), x);
  }

  lemma {:induction false} CorrectedRead(x: Vec, k: Vec, c: real, u: Vec)
    requires |x| == |k| == |u|
    ensures Dot(Sub(x, Scale(c, k)), u) == Dot(x, u) - Times(c, Dot(k, u))
  {
    SubIsAdd(x, k, c);
    WrittenRead(x, k, -c, u);
    NegatedProduct(c, Dot(k, u));
  }

  lemma SubIsAdd(x: Vec, k: Vec, c: real)
    requires |x| == |k|
    ensures Sub(x, Scale(c, k)) == Add(x, Scale(-c, k))
  {
    var left, right := Sub(x, Scale(c, k)), Add(x, Scale(-c, k));
    forall i | 0 <= i < |x| ensures left[i] == right[i] {
      NegatedProduct(c, k[i]);
    }
  }

  lemma NegatedProduct(c: real, k: real)
    ensures Times(-c, k) == -Times(c, k)
  {
  }

  lemma TimesLinear(b: real, a: real, x: real, y: real, s: real)
    requires s == a * x + y
    ensures Times(b, s) == a * Times(b, x) + Times(b, y)
  {
    ScaleArithmetic(b, a, x, y, s, b * x);
  }

  lemma {:induction false} RunLinear(a: real, x: Vec, y: Vec, ts: seq<Token>)
    requires |x| == |y| && TokensOf(ts, |x|)
    ensures RunRow(Add(Scale(a, x), y), ts) == Add(Scale(a, RunRow(x, ts)), RunRow(y, ts))
    decreases |ts|
  {
    if |ts| == 0 {
    } else {
      var front := ts[..|ts| - 1];
      RunLinear(a, x, y, front);
      StepLinear(a, RunRow(x, front), RunRow(y, front), ts[|ts| - 1]);
    }
  }

  lemma {:induction false} RunZero(n: nat, ts: seq<Token>)
    requires TokensOf(ts, n)
    ensures RunRow(Zero(n), ts) == Zero(n)
    decreases |ts|
  {
    if |ts| == 0 {
    } else {
      RunZero(n, ts[..|ts| - 1]);
      var t := ts[|ts| - 1];
      assert Scale(t.decay, Zero(n)) == Zero(n);
      DotZero(t.key);
      assert StepRow(Zero(n), t) == Zero(n);
    }
  }

  function RunRows(rows: Mat, ts: seq<Token>, width: nat): (r: Mat)
    requires Rows(rows, width) && TokensOf(ts, width)
    ensures |r| == |rows| && Rows(r, width)
  {
    seq(|rows|, i requires 0 <= i < |rows| => RunRow(rows[i], ts))
  }

  lemma {:induction false} RunCombination(c: Vec, rows: Mat, ts: seq<Token>, width: nat)
    requires |c| == |rows| && Rows(rows, width) && TokensOf(ts, width)
    ensures RunRow(Combination(c, rows, width), ts) == Combination(c, RunRows(rows, ts, width), width)
    decreases |c|
  {
    if |c| == 0 {
      RunZero(width, ts);
    } else {
      RunCombination(c[1..], rows[1..], ts, width);
      RunLinear(c[0], rows[0], Combination(c[1..], rows[1..], width), ts);
      assert RunRows(rows, ts, width)[1..] == RunRows(rows[1..], ts, width);
    }
  }

  function Identity(n: nat): (m: Mat)
    ensures |m| == n && Rows(m, n)
  {
    seq(n, k requires 0 <= k < n => Unit(n, k))
  }

  lemma {:induction false} DotUnit(x: Vec, n: nat, k: nat)
    requires |x| == n
    ensures Dot(x, Unit(n, k)) == if k < n then x[k] else 0.0
    decreases n
  {
    if n == 0 {
    } else if k == 0 {
      assert Unit(n, 0)[1..] == Zero(n - 1);
      DotCommutes(x[1..], Zero(n - 1));
      DotZero(x[1..]);
    } else {
      assert Unit(n, k)[1..] == Unit(n - 1, k - 1);
      DotUnit(x[1..], n - 1, k - 1);
    }
  }

  lemma {:induction false} DotCommutes(x: Vec, y: Vec)
    requires |x| == |y|
    ensures Dot(x, y) == Dot(y, x)
  {
    if |x| == 0 {
    } else {
      DotCommutes(x[1..], y[1..]);
    }
  }

  /** Every row is the combination of the identity rows by its own entries. */
  lemma {:induction false} CombinationOfIdentity(x: Vec)
    ensures Combination(x, Identity(|x|), |x|) == x
  {
    var n := |x|;
    VecMatIsCombination(x, Identity(n), n);
    forall l | 0 <= l < n ensures VecMat(x, Identity(n), n)[l] == x[l] {
      assert Column(Identity(n), n, l) == Unit(n, l);
      DotUnit(x, n, l);
    }
  }

  // ---------- main results on rows ----------

  /** The rank-one form used while building an operator is the propagation step itself. */
  lemma RankOneIsStep(row: Vec, t: Token)
    requires |row| == |t.key|
    ensures RankOneRow(row, t) == StepRow(row, t)
  {
    var read := Dot(row, t.key);
    DotScale(t.decay, row, t.key, read);
    var decayedRead := Dot(Scale(t.decay, row), t.key);
    TimesSwap(t.beta, t.decay, read, decayedRead);
    ScaleCorrection(t.decay, row, t.key, Times(t.beta, read), Times(t.beta, decayedRead));
  }

  lemma TimesSwap(b: real, g: real, r: real, gr: real)
    requires gr == g * r
    ensures Times(b, gr) == g * Times(b, r)
  {
  }

  lemma ScaleCorrection(g: real, x: Vec, k: Vec, c: real, e: real)
    requires |x| == |k| && e == g * c
    ensures Scale(g, Sub(x, Scale(c, k))) == Sub(Scale(g, x), Scale(e, k))
  {
    var p := Sub(x, Scale(c, k));
    var left, right := Scale(g, p), Sub(Scale(g, x), Scale(e, k));
    forall i | 0 <= i < |x| ensures left[i] == right[i] {
      RankOneArithmetic(g, x[i], k[i], c, e, p[i]);
    }
  }

  lemma RankOneArithmetic(g: real, x: real, k: real, c: real, e: real, p: real)
    requires e == g * c && p == x - c * k
    ensures g * p == g * x - e * k
  {
    assert e * k == g * (c * k);
  }

  /** One cached operator reproduces token-by-token propagation: the final row and every output. */
  lemma {:induction false} OperatorIsExact(x: Vec, ts: seq<Token>, scale: real)
    requires TokensOf(ts, |x|)
    ensures VecMat(x, Transition(ts, |x|), |x|) == RunRow(x, ts)
    ensures forall t :: 0 <= t < |ts| ==>
      Dot(x, Responses(ts, |x|, scale)[t]) == OutputRow(x, ts, t, scale)
  {
    TransitionIsExact(x, ts);
    forall t | 0 <= t < |ts|
      ensures Dot(x, Responses(ts, |x|, scale)[t]) == OutputRow(x, ts, t, scale)
    {
      ResponseIsExact(x, ts, t, scale);
    }
  }

  lemma ResponseIsScaledRead(ts: seq<Token>, width: nat, t: nat, scale: real)
    requires TokensOf(ts, width) && t < |ts|
    ensures Responses(ts, width, scale)[t] == Scale(scale, MatVec(Transition(ts[..t + 1], width), ts[t].query))
  {
    var m := Transition(ts[..t + 1], width);
    var r, s := Responses(ts, width, scale)[t], Scale(scale, MatVec(m, ts[t].query));
    forall k | 0 <= k < width ensures r[k] == s[k] {
      assert r[k] == OutputRow(Unit(width, k), ts, t, scale);
      assert m[k] == RunRow(Unit(width, k), ts[..t + 1]);
    }
  }

  lemma {:induction false} ResponseIsExact(x: Vec, ts: seq<Token>, t: nat, scale: real)
    requires TokensOf(ts, |x|) && t < |ts|
    ensures Dot(x, Responses(ts, |x|, scale)[t]) == OutputRow(x, ts, t, scale)
  {
    var q, head := ts[t].query, ts[..t + 1];
    var read := MatVec(Transition(head, |x|), q);
    ResponseIsScaledRead(ts, |x|, t, scale);
    var d := Dot(x, read);
    DotScaleRight(scale, x, read, d);
    ReadThroughTransition(x, head, q);
    OutputIs(RunRow(x, head), q, scale, d);
  }

  lemma {:induction false} OutputIs(row: Vec, q: Vec, scale: real, d: real)
    requires |row| == |q| && d == Dot(row, q)
    ensures Output(row, q, scale) == d * scale
  {
  }

  lemma {:induction false} DotScaleRight(a: real, x: Vec, y: Vec, d: real)
    requires |x| == |y| && d == Dot(x, y)
    ensures Dot(x, Scale(a, y)) == d * a
  {
    DotCommutes(x, Scale(a, y));
    DotCommutes(y, x);
    DotScale(a, y, x, d);
  }

  /** Reading the propagated row is reading through the transition matrix. */
  lemma {:induction false} ReadThroughTransition(x: Vec, ts: seq<Token>, q: Vec)
    requires TokensOf(ts, |x|) && |q| == |x|
    ensures Dot(RunRow(x, ts), q) == Dot(x, MatVec(Transition(ts, |x|), q))
  {
    var m := Transition(ts, |x|);
    TransitionIsExact(x, ts);
    VecMatIsCombination(x, m, |x|);
    DotCombination(x, m, q);
  }

  lemma {:induction false} TransitionIsExact(x: Vec, ts: seq<Token>)
    requires TokensOf(ts, |x|)
    ensures VecMat(x, Transition(ts, |x|), |x|) == RunRow(x, ts)
  {
    var n := |x|;
    CombinationOfIdentity(x);
    RunCombination(x, Identity(n), ts, n);
    assert RunRows(Identity(n), ts, n) == Transition(ts, n);
    VecMatIsCombination(x, Transition(ts, n), n);
  }

  /**
   The operator is determined by the block: whatever reproduces propagation on the unit rows
   alone is already the built transition and responses.
   */
  lemma {:induction false} OperatorIsUnique(ts: seq<Token>, width: nat, scale: real, m: Mat, r: seq<Vec>)
    requires TokensOf(ts, width)
    requires |m| == width && Rows(m, width) && |r| == |ts| && Rows(r, width)
    requires forall k :: 0 <= k < width ==> VecMat(Unit(width, k), m, width) == RunRow(Unit(width, k), ts)
    requires forall k, t :: 0 <= k < width && 0 <= t < |ts| ==>
      Dot(Unit(width, k), r[t]) == OutputRow(Unit(width, k), ts, t, scale)
    ensures m == Transition(ts, width) && r == Responses(ts, width, scale)
  {
    forall k | 0 <= k < width ensures m[k] == Transition(ts, width)[k] {
      UnitSelectsRow(m, width, k);
    }
    forall t | 0 <= t < |ts| ensures r[t] == Responses(ts, width, scale)[t] {
      ResponseIsUnique(ts, width, scale, t, r[t]);
    }
  }

  lemma {:induction false} ResponseIsUnique(ts: seq<Token>, width: nat, scale: real, t: nat, r: Vec)
    requires TokensOf(ts, width) && t < |ts| && |r| == width
    requires forall k :: 0 <= k < width ==> Dot(Unit(width, k), r) == OutputRow(Unit(width, k), ts, t, scale)
    ensures r == Responses(ts, width, scale)[t]
  {
    var expected := Responses(ts, width, scale)[t];
    forall k | 0 <= k < width ensures r[k] == expected[k] {
      DotCommutes(Unit(width, k), r);
      DotUnit(r, width, k);
    }
  }

  lemma UnitSelectsRow(m: Mat, width: nat, k: nat)
    requires |m| == width && Rows(m, width) && k < width
    ensures VecMat(Unit(width, k), m, width) == m[k]
  {
    var u := Unit(width, k);
    forall l | 0 <= l < width ensures VecMat(u, m, width)[l] == m[k][l] {
      DotCommutes(u, Column(m, width, l));
      DotUnit(Column(m, width, l), width, k);
    }
  }

  lemma {:induction false} RunConcat(x: Vec, a: seq<Token>, b: seq<Token>)
    requires TokensOf(a, |x|) && TokensOf(b, |x|)
    ensures RunRow(x, a + b) == RunRow(RunRow(x, a), b)
    decreases |b|
  {
    if |b| == 0 {
      assert a + b == a;
    } else {
      var b' := b[..|b| - 1];
      RunConcat(x, a, b');
      assert (a + b)[..|a + b| - 1] == a + b';
    }
  }

  /** Operators compose: transitions multiply and the second block's responses are premultiplied. */
  lemma OperatorsCompose(a: seq<Token>, b: seq<Token>, width: nat, scale: real)
    requires TokensOf(a, width) && TokensOf(b, width)
    ensures Transition(a + b, width) == MatMul(Transition(a, width), Transition(b, width), width)
    ensures Responses(a + b, width, scale)[..|a|] == Responses(a, width, scale)
    ensures forall t :: 0 <= t < |b| ==>
      Responses(a + b, width, scale)[|a| + t] == MatVec(Transition(a, width), Responses(b, width, scale)[t])
  {
    TransitionsMultiply(a, b, width);
    var ra := Responses(a + b, width, scale)[..|a|];
    forall t | 0 <= t < |a| ensures ra[t] == Responses(a, width, scale)[t] {
      EarlyResponse(a, b, width, scale, t);
    }
    forall t | 0 <= t < |b|
      ensures Responses(a + b, width, scale)[|a| + t] == MatVec(Transition(a, width), Responses(b, width, scale)[t])
    {
      LateResponse(a, b, width, scale, t);
    }
  }

  lemma TransitionsMultiply(a: seq<Token>, b: seq<Token>, width: nat)
    requires TokensOf(a, width) && TokensOf(b, width)
    ensures Transition(a + b, width) == MatMul(Transition(a, width), Transition(b, width), width)
  {
    var left, right := Transition(a + b, width), MatMul(Transition(a, width), Transition(b, width), width);
    forall k | 0 <= k < width ensures left[k] == right[k] {
      RunConcat(Unit(width, k), a, b);
      TransitionIsExact(RunRow(Unit(width, k), a), b);
    }
  }

  lemma EarlyResponse(a: seq<Token>, b: seq<Token>, width: nat, scale: real, t: nat)
    requires TokensOf(a, width) && TokensOf(b, width) && t < |a|
    ensures Responses(a + b, width, scale)[t] == Responses(a, width, scale)[t]
  {
    assert (a + b)[..t + 1] == a[..t + 1];
    ResponseIsScaledRead(a + b, width, t, scale);
    ResponseIsScaledRead(a, width, t, scale);
  }

  lemma LateResponse(a: seq<Token>, b: seq<Token>, width: nat, scale: real, t: nat)
    requires TokensOf(a, width) && TokensOf(b, width) && t < |b|
    ensures Responses(a + b, width, scale)[|a| + t] == MatVec(Transition(a, width), Responses(b, width, scale)[t])
  {
    var left, right := Responses(a + b, width, scale)[|a| + t],
      MatVec(Transition(a, width), Responses(b, width, scale)[t]);
    forall k | 0 <= k < width ensures left[k] == right[k] {
      OutputConcat(Unit(width, k), a, b, |a| + t, scale);
      ResponseIsExact(RunRow(Unit(width, k), a), b, t, scale);
    }
  }

  lemma {:induction false} OutputConcat(x: Vec, a: seq<Token>, b: seq<Token>, t: nat, scale: real)
    requires TokensOf(a, |x|) && TokensOf(b, |x|) && t < |a| + |b|
    ensures OutputRow(x, a + b, t, scale) ==
      if t < |a| then OutputRow(x, a, t, scale) else OutputRow(RunRow(x, a), b, t - |a|, scale)
  {
    var ab, y := a + b, RunRow(x, a);
    if t < |a| {
      assert ab[..t + 1] == a[..t + 1];
    } else {
      var head := b[..t - |a| + 1];
      assert ab[..t + 1] == a + head;
      RunConcat(x, a, head);
      assert OutputRow(x, ab, t, scale) == Output(RunRow(y, head), b[t - |a|].query, scale);
    }
  }

  function Flatten(blocks: seq<seq<Token>>): seq<Token> {
    if |blocks| == 0 then [] else blocks[0] + Flatten(blocks[1..])
  }

  predicate BlocksOf(blocks: seq<seq<Token>>, width: nat) {
    forall b :: 0 <= b < |blocks| ==> TokensOf(blocks[b], width)
  }

  lemma {:induction false} FlattenTokens(blocks: seq<seq<Token>>, width: nat)
    requires BlocksOf(blocks, width)
    ensures TokensOf(Flatten(blocks), width)
  {
    if |blocks| == 0 {
    } else {
      FlattenTokens(blocks[1..], width);
    }
  }

  /** Correcting block after block with cached operators only: the final row and all outputs. */
  function ApplyChain(x: Vec, blocks: seq<seq<Token>>, scale: real): (r: (Vec, seq<real>))
    requires BlocksOf(blocks, |x|)
    ensures |r.0| == |x|
    decreases |blocks|
  {
    if |blocks| == 0 then (x, [])
    else
      var n, block := |x|, blocks[0];
      var outputs := seq(|block|, t requires 0 <= t < |block| => Dot(x, Responses(block, n, scale)[t]));
      var (final, rest) := ApplyChain(VecMat(x, Transition(block, n), n), blocks[1..], scale);
      (final, outputs + rest)
  }

  /** Any number of cached blocks in sequence equals one token-by-token run over all their tokens. */
  lemma {:induction false} ChainIsExact(x: Vec, blocks: seq<seq<Token>>, scale: real)
    requires BlocksOf(blocks, |x|)
    ensures TokensOf(Flatten(blocks), |x|)
    ensures ApplyChain(x, blocks, scale).0 == RunRow(x, Flatten(blocks))
    ensures ApplyChain(x, blocks, scale).1 ==
      seq(|Flatten(blocks)|, t requires 0 <= t < |Flatten(blocks)| => OutputRow(x, Flatten(blocks), t, scale))
    decreases |blocks|
  {
    FlattenTokens(blocks, |x|);
    if |blocks| == 0 {
    } else {
      var a, rest, n := blocks[0], blocks[1..], |x|;
      var b := Flatten(rest);
      OperatorIsExact(x, a, scale);
      var y := RunRow(x, a);
      ChainIsExact(y, rest, scale);
      RunConcat(x, a, b);
      forall t | 0 <= t < |a| + |b|
        ensures OutputRow(x, a + b, t, scale) ==
          if t < |a| then OutputRow(x, a, t, scale) else OutputRow(y, b, t - |a|, scale)
      {
        OutputConcat(x, a, b, t, scale);
      }
    }
  }

  lemma FullStepDifference(x: Vec, y: Vec, t: Token, v: real)
    requires |x| == |y| == |t.key|
    ensures Sub(FullStepRow(x, t, v), FullStepRow(y, t, v)) == StepRow(Sub(x, y), t)
  {
    var dx, dy := Scale(t.decay, x), Scale(t.decay, y);
    var rx, ry := Dot(dx, t.key), Dot(dy, t.key);
    ScaleSub(t.decay, x, y);
    DotSub(dx, dy, t.key, rx, ry);
    TimesCancels(t.beta, v, rx, ry);
    ValueCancels(dx, dy, t.key, Times(t.beta, v - rx), Times(t.beta, v - ry), Times(t.beta, rx - ry));
  }

  lemma ScaleSub(g: real, x: Vec, y: Vec)
    requires |x| == |y|
    ensures Scale(g, Sub(x, y)) == Sub(Scale(g, x), Scale(g, y))
  {
    var left, right := Scale(g, Sub(x, y)), Sub(Scale(g, x), Scale(g, y));
    forall i | 0 <= i < |x| ensures left[i] == right[i] {
      assert g * (x[i] - y[i]) == g * x[i] - g * y[i];
    }
  }

  lemma {:induction false} DotSub(x: Vec, y: Vec, z: Vec, dx: real, dy: real)
    requires |x| == |y| == |z| && dx == Dot(x, z) && dy == Dot(y, z)
    ensures Dot(Sub(x, y), z) == dx - dy
  {
    assert Sub(x, y) == Add(Scale(-1.0, y), x);
    DotLinear(-1.0, y, x, z, dy, dx);
  }

  lemma TimesCancels(b: real, v: real, x: real, y: real)
    ensures Times(b, v - x) - Times(b, v - y) == -Times(b, x - y)
  {
  }

  /** The value term is in both runs and leaves only the difference of the reads. */
  lemma ValueCancels(x: Vec, y: Vec, k: Vec, c: real, d: real, e: real)
    requires |x| == |y| == |k| && c - d == -e
    ensures Sub(Add(x, Scale(c, k)), Add(y, Scale(d, k))) == Sub(Sub(x, y), Scale(e, k))
  {
    var left, right := Sub(Add(x, Scale(c, k)), Add(y, Scale(d, k))), Sub(Sub(x, y), Scale(e, k));
    forall i | 0 <= i < |x| ensures left[i] == right[i] {
      assert c * k[i] - d * k[i] == -(e * k[i]);
    }
  }

  /** The delta run is exactly the difference of two full runs over the same tokens and values. */
  lemma {:induction false} DeltaIsDifferenceOfRuns(x: Vec, y: Vec, ts: seq<Token>, vs: seq<real>)
    requires |x| == |y| && TokensOf(ts, |x|) && |vs| == |ts|
    ensures Sub(FullRunRow(x, ts, vs), FullRunRow(y, ts, vs)) == RunRow(Sub(x, y), ts)
    decreases |ts|
  {
    if |ts| == 0 {
    } else {
      var n := |ts| - 1;
      DeltaIsDifferenceOfRuns(x, y, ts[..n], vs[..n]);
      FullStepDifference(FullRunRow(x, ts[..n], vs[..n]), FullRunRow(y, ts[..n], vs[..n]), ts[n], vs[n]);
    }
  }

  /** ... and so is every per-token output effect. */
  lemma {:induction false} OutputIsDifferenceOfRuns(x: Vec, y: Vec, ts: seq<Token>, vs: seq<real>, t: nat, scale: real)
    requires |x| == |y| && TokensOf(ts, |x|) && |vs| == |ts| && t < |ts|
    ensures Output(FullRunRow(x, ts[..t + 1], vs[..t + 1]), ts[t].query, scale)
          - Output(FullRunRow(y, ts[..t + 1], vs[..t + 1]), ts[t].query, scale)
         == OutputRow(Sub(x, y), ts, t, scale)
  {
    var fx, fy := FullRunRow(x, ts[..t + 1], vs[..t + 1]), FullRunRow(y, ts[..t + 1], vs[..t + 1]);
    DeltaIsDifferenceOfRuns(x, y, ts[..t + 1], vs[..t + 1]);
    OutputSub(fx, fy, ts[t].query, scale);
  }

  lemma OutputSub(x: Vec, y: Vec, q: Vec, scale: real)
    requires |x| == |y| == |q|
    ensures Output(x, q, scale) - Output(y, q, scale) == Output(Sub(x, y), q, scale)
  {
    var dx, dy := Dot(x, q), Dot(y, q);
    DotSub(x, y, q, dx, dy);
    OutputIs(x, q, scale, dx);
    OutputIs(y, q, scale, dy);
    OutputIs(Sub(x, y), q, scale, dx - dy);
    assert dx * scale - dy * scale == (dx - dy) * scale;
  }
}
