/**
 Several cached blocks on whole tensors: composing operators, chains of blocks, and the full
 recurrence whose difference the deltas are. Everything holds for every grouped-head layout.
 */
module DeltaBlocks {
  import opened Common
  import opened DeltaRows
  import opened DeltaTensors

  // ---------- two blocks in sequence ----------

  /** Blocks of one layer: the same heads, width and scale. */
  predicate SameLayer(a: Coefficients, b: Coefficients) {
    a.keys.d1 == b.keys.d1 && a.keys.d2 == b.keys.d2 && a.scale == b.scale
  }

  /** The tokens of one block followed by those of another. */
  function Join(a: Coefficients, b: Coefficients, valueHeads: nat): (c: Coefficients)
    requires Agree(a, valueHeads) && Agree(b, valueHeads) && SameLayer(a, b)
    ensures Agree(c, valueHeads) && SameLayer(c, a) && SameLayer(c, b) && c.keys.d0 == a.keys.d0 + b.keys.d0
  {
    Coefficients(
      Stack3(a.keys, b.keys), Stack3(a.queries, b.queries), Stack2(a.decays, b.decays), Stack2(a.betas, b.betas),
      a.scale)
  }

  function Stack2(x: Tensor2, y: Tensor2): (z: Tensor2)
    requires x.d1 == y.d1
    ensures z.d0 == x.d0 + y.d0 && z.d1 == x.d1 && z.at == x.at + y.at
  {
    Tensor2(x.d0 + y.d0, x.d1, x.at + y.at)
  }

  function Stack3(x: Tensor3, y: Tensor3): (z: Tensor3)
    requires x.d1 == y.d1 && x.d2 == y.d2
    ensures z.d0 == x.d0 + y.d0 && z.d1 == x.d1 && z.d2 == x.d2 && z.at == x.at + y.at
  {
    Tensor3(x.d0 + y.d0, x.d1, x.d2, x.at + y.at)
  }

  lemma JoinedTokens(a: Coefficients, b: Coefficients, valueHeads: nat, h: nat)
    requires Agree(a, valueHeads) && Agree(b, valueHeads) && SameLayer(a, b) && h < valueHeads
    ensures HeadTokens(Join(a, b, valueHeads), valueHeads, h) == HeadTokens(a, valueHeads, h) +
      HeadTokens(b, valueHeads, h)
  {
    var c := Join(a, b, valueHeads);
    var g := GroupOf(h, c.keys.d1, valueHeads);
    var left, right := HeadTokens(c, valueHeads, h), HeadTokens(a, valueHeads, h) + HeadTokens(b, valueHeads, h);
    forall t | 0 <= t < c.keys.d0 ensures left[t] == right[t] {
      assert left[t] == Token(c.keys.at[t][g], c.queries.at[t][g], c.decays.at[t][h], c.betas.at[t][h]);
    }
  }

  /** Operators of two blocks combined: transitions multiply, later responses are premultiplied. */
  function Compose(a: Operator, b: Operator): (o: Operator)
    requires a.transition.d1 == a.transition.d2 && SameShape(a.transition, b.transition)
    requires a.responses.d1 == b.responses.d1 == a.transition.d0 && a.responses.d2 == b.responses.d2 == a.transition.d2
  {
    var heads, width := a.transition.d0, a.transition.d2;
    Operator(
      Tensor3(heads, width, width,
        seq(heads, h requires 0 <= h < heads => MatMul(a.transition.at[h], b.transition.at[h], width))),
      Tensor3(a.responses.d0 + b.responses.d0, heads, width,
        a.responses.at +
        seq(b.responses.d0, t requires 0 <= t < b.responses.d0 => Premultiplied(a.transition, b.responses.at[t]))))
  }

  /** Every head's response multiplied by that head's transition. */
  function Premultiplied(m: Tensor3, response: Mat): (r: Mat)
    requires |response| == m.d0 && Rows(response, m.d2)
    ensures |r| == m.d0 && Rows(r, m.d1)
  {
    seq(m.d0, h requires 0 <= h < m.d0 => MatVec(m.at[h], response[h]))
  }

  /** The operator of two blocks in sequence is the composition of theirs, for every grouped-head layout. */
  lemma BlocksCompose(a: Coefficients, b: Coefficients, valueHeads: nat)
    requires Agree(a, valueHeads) && Agree(b, valueHeads) && SameLayer(a, b)
    ensures OperatorOf(Join(a, b, valueHeads), valueHeads) ==
      Compose(OperatorOf(a, valueHeads), OperatorOf(b, valueHeads))
  {
    var left, right := OperatorOf(Join(a, b, valueHeads), valueHeads),
      Compose(OperatorOf(a, valueHeads), OperatorOf(b, valueHeads));
    TransitionsCompose(a, b, valueHeads);
    ResponsesCompose(a, b, valueHeads);
    assert left.transition == right.transition && left.responses == right.responses;
  }

  lemma TransitionsCompose(a: Coefficients, b: Coefficients, valueHeads: nat)
    requires Agree(a, valueHeads) && Agree(b, valueHeads) && SameLayer(a, b)
    ensures OperatorOf(Join(a, b, valueHeads), valueHeads).transition.at
         == Compose(OperatorOf(a, valueHeads), OperatorOf(b, valueHeads)).transition.at
  {
    forall h | 0 <= h < valueHeads
      ensures OperatorOf(Join(a, b, valueHeads), valueHeads).transition.at[h]
           == MatMul(OperatorOf(a, valueHeads).transition.at[h], OperatorOf(b, valueHeads).transition.at[h], a.keys.d2)
    {
      HeadsCompose(a, b, valueHeads, h);
    }
  }

  lemma ResponsesCompose(a: Coefficients, b: Coefficients, valueHeads: nat)
    requires Agree(a, valueHeads) && Agree(b, valueHeads) && SameLayer(a, b)
    ensures OperatorOf(Join(a, b, valueHeads), valueHeads).responses.at
         == Compose(OperatorOf(a, valueHeads), OperatorOf(b, valueHeads)).responses.at
  {
    var left := OperatorOf(Join(a, b, valueHeads), valueHeads).responses.at;
    var right := Compose(OperatorOf(a, valueHeads), OperatorOf(b, valueHeads)).responses.at;
    forall t | 0 <= t < a.keys.d0 ensures left[t] == right[t] {
      EarlyResponses(a, b, valueHeads, t);
    }
    forall t | a.keys.d0 <= t < a.keys.d0 + b.keys.d0 ensures left[t] == right[t] {
      LateResponses(a, b, valueHeads, t - a.keys.d0);
    }
  }

  lemma HeadsCompose(a: Coefficients, b: Coefficients, valueHeads: nat, h: nat)
    requires Agree(a, valueHeads) && Agree(b, valueHeads) && SameLayer(a, b) && h < valueHeads
    ensures OperatorOf(Join(a, b, valueHeads), valueHeads).transition.at[h]
         == MatMul(OperatorOf(a, valueHeads).transition.at[h], OperatorOf(b, valueHeads).transition.at[h], a.keys.d2)
  {
    HeadTransition(a, valueHeads, h);
    HeadTransition(b, valueHeads, h);
    HeadTransition(Join(a, b, valueHeads), valueHeads, h);
    JoinedTokens(a, b, valueHeads, h);
    TransitionsMultiply(HeadTokens(a, valueHeads, h), HeadTokens(b, valueHeads, h), a.keys.d2);
  }

  lemma HeadTransition(c: Coefficients, valueHeads: nat, h: nat)
    requires Agree(c, valueHeads) && h < valueHeads
    ensures OperatorOf(c, valueHeads).transition.at[h] == Transition(HeadTokens(c, valueHeads, h), c.keys.d2)
  {
    var ts := HeadTokens(c, valueHeads, h);
    assert ts[..c.keys.d0] == ts;
  }

  lemma EarlyResponses(a: Coefficients, b: Coefficients, valueHeads: nat, t: nat)
    requires Agree(a, valueHeads) && Agree(b, valueHeads) && SameLayer(a, b) && t < a.keys.d0
    ensures ResponseAt(Join(a, b, valueHeads), valueHeads, t) == ResponseAt(a, valueHeads, t)
  {
    var left, right := ResponseAt(Join(a, b, valueHeads), valueHeads, t), ResponseAt(a, valueHeads, t);
    forall h | 0 <= h < valueHeads ensures left[h] == right[h] {
      EarlyHeadResponse(a, b, valueHeads, t, h);
    }
  }

  lemma LateResponses(a: Coefficients, b: Coefficients, valueHeads: nat, t: nat)
    requires Agree(a, valueHeads) && Agree(b, valueHeads) && SameLayer(a, b) && t < b.keys.d0
    ensures ResponseAt(Join(a, b, valueHeads), valueHeads, a.keys.d0 + t)
         == Premultiplied(TransitionAfter(a, valueHeads, a.keys.d0), ResponseAt(b, valueHeads, t))
  {
    var left := ResponseAt(Join(a, b, valueHeads), valueHeads, a.keys.d0 + t);
    var right := Premultiplied(TransitionAfter(a, valueHeads, a.keys.d0), ResponseAt(b, valueHeads, t));
    forall h | 0 <= h < valueHeads ensures left[h] == right[h] {
      LateHeadResponse(a, b, valueHeads, t, h);
    }
  }

  lemma EarlyHeadResponse(a: Coefficients, b: Coefficients, valueHeads: nat, t: nat, h: nat)
    requires Agree(a, valueHeads) && Agree(b, valueHeads) && SameLayer(a, b) && t < a.keys.d0 && h < valueHeads
    ensures ResponseAt(Join(a, b, valueHeads), valueHeads, t)[h] == ResponseAt(a, valueHeads, t)[h]
  {
    JoinedTokens(a, b, valueHeads, h);
    EarlyResponse(HeadTokens(a, valueHeads, h), HeadTokens(b, valueHeads, h), a.keys.d2, a.scale, t);
  }

  lemma LateHeadResponse(a: Coefficients, b: Coefficients, valueHeads: nat, t: nat, h: nat)
    requires Agree(a, valueHeads) && Agree(b, valueHeads) && SameLayer(a, b) && t < b.keys.d0 && h < valueHeads
    ensures ResponseAt(Join(a, b, valueHeads), valueHeads, a.keys.d0 + t)[h]
         == MatVec(TransitionAfter(a, valueHeads, a.keys.d0).at[h], ResponseAt(b, valueHeads, t)[h])
  {
    var x, y := HeadTokens(a, valueHeads, h), HeadTokens(b, valueHeads, h);
    JoinedTokens(a, b, valueHeads, h);
    assert x[..a.keys.d0] == x;
    LateResponse(x, y, a.keys.d2, a.scale, t);
  }

  /** Propagation through two blocks: the second starts from the final state of the first. */
  lemma PropagationContinues(initial: Tensor3, a: Coefficients, b: Coefficients)
    requires Agree(a, initial.d0) && Agree(b, initial.d0) && SameLayer(a, b) && initial.d2 == a.keys.d2
    ensures var c, middle := Join(a, b, initial.d0), StateAfter(initial, a, a.keys.d0);
      && StateAfter(initial, c, c.keys.d0) == StateAfter(middle, b, b.keys.d0)
      && (forall t :: 0 <= t < a.keys.d0 ==> OutputAt(initial, c, t) == OutputAt(initial, a, t))
      && (forall t :: 0 <= t < b.keys.d0 ==> OutputAt(initial, c, a.keys.d0 + t) == OutputAt(middle, b, t))
  {
    var c, middle := Join(a, b, initial.d0), StateAfter(initial, a, a.keys.d0);
    StatesContinue(initial, a, b);
    forall t | 0 <= t < a.keys.d0 ensures OutputAt(initial, c, t) == OutputAt(initial, a, t) {
      OutputsContinue(initial, a, b, t);
    }
    forall t | 0 <= t < b.keys.d0 ensures OutputAt(initial, c, a.keys.d0 + t) == OutputAt(middle, b, t) {
      OutputsContinue(initial, a, b, a.keys.d0 + t);
    }
  }

  lemma StatesContinue(initial: Tensor3, a: Coefficients, b: Coefficients)
    requires Agree(a, initial.d0) && Agree(b, initial.d0) && SameLayer(a, b) && initial.d2 == a.keys.d2
    ensures StateAfter(initial, Join(a, b, initial.d0), a.keys.d0 + b.keys.d0) ==
      StateAfter(StateAfter(initial, a, a.keys.d0), b, b.keys.d0)
  {
    var left := StateAfter(initial, Join(a, b, initial.d0), a.keys.d0 + b.keys.d0);
    var right := StateAfter(StateAfter(initial, a, a.keys.d0), b, b.keys.d0);
    forall h | 0 <= h < initial.d0 ensures left.at[h] == right.at[h] {
      var x, y := HeadTokens(a, initial.d0, h), HeadTokens(b, initial.d0, h);
      JoinedTokens(a, b, initial.d0, h);
      assert x[..a.keys.d0] == x && y[..b.keys.d0] == y && (x + y)[..a.keys.d0 + b.keys.d0] == x + y;
      forall v | 0 <= v < initial.d1 ensures left.at[h][v] == right.at[h][v] {
        RunConcat(initial.at[h][v], x, y);
      }
    }
  }

  lemma OutputsContinue(initial: Tensor3, a: Coefficients, b: Coefficients, t: nat)
    requires Agree(a, initial.d0) && Agree(b, initial.d0) && SameLayer(a, b) && initial.d2 == a.keys.d2 &&
      t < a.keys.d0 + b.keys.d0
    ensures OutputAt(initial, Join(a, b, initial.d0), t)
         == if t < a.keys.d0 then OutputAt(initial, a, t)
            else OutputAt(StateAfter(initial, a, a.keys.d0), b, t - a.keys.d0)
  {
    var middle := StateAfter(initial, a, a.keys.d0);
    var left := OutputAt(initial, Join(a, b, initial.d0), t);
    var right := if t < a.keys.d0 then OutputAt(initial, a, t) else OutputAt(middle, b, t - a.keys.d0);
    forall h | 0 <= h < initial.d0 ensures left.at[h] == right.at[h] {
      var x, y := HeadTokens(a, initial.d0, h), HeadTokens(b, initial.d0, h);
      JoinedTokens(a, b, initial.d0, h);
      assert x[..a.keys.d0] == x;
      forall v | 0 <= v < initial.d1 ensures left.at[h][v] == right.at[h][v] {
        OutputConcat(initial.at[h][v], x, y, t, a.scale);
      }
    }
  }

  // ---------- any number of blocks ----------

  /** Blocks of one layer with the given number of value heads. */
  predicate Layer(blocks: seq<Coefficients>, valueHeads: nat) {
    |blocks| > 0 && forall i :: 0 <= i < |blocks| ==> Agree(blocks[i], valueHeads) && SameLayer(blocks[i], blocks[0])
  }

  /** All tokens of all blocks. */
  function JoinAll(blocks: seq<Coefficients>, valueHeads: nat): (c: Coefficients)
    requires Layer(blocks, valueHeads)
    ensures Agree(c, valueHeads) && SameLayer(c, blocks[0])
  {
    if |blocks| == 1 then blocks[0]
    else Join(JoinAll(blocks[..|blocks| - 1], valueHeads), blocks[|blocks| - 1], valueHeads)
  }

  /** Applying the cached operator of one block after the other, collecting the outputs. */
  function ApplyAll(initial: Tensor3, blocks: seq<Coefficients>): (r: (Tensor3, seq<Tensor2>))
    requires Layer(blocks, initial.d0) && initial.d2 == blocks[0].keys.d2
    ensures SameShape(r.0, initial)
  {
    var last := blocks[|blocks| - 1];
    if |blocks| == 1 then ApplyBlock(initial, last)
    else
      var before := ApplyAll(initial, blocks[..|blocks| - 1]);
      var next := ApplyBlock(before.0, last);
      (next.0, before.1 + next.1)
  }

  /** Applying the cached operator of one block. */
  function ApplyBlock(initial: Tensor3, c: Coefficients): (r: (Tensor3, seq<Tensor2>))
    requires Agree(c, initial.d0) && initial.d2 == c.keys.d2
    ensures SameShape(r.0, initial)
  {
    ApplyMatchesPropagation(initial, c);
    ApplyBlockDeltaOperator(initial, OperatorOf(c, initial.d0)).value
  }

  /** The outputs of step-by-step propagation at every token. */
  function Outputs(initial: Tensor3, c: Coefficients): seq<Tensor2>
    requires Agree(c, initial.d0) && initial.d2 == c.keys.d2
  {
    seq(c.keys.d0, t requires 0 <= t < c.keys.d0 => OutputAt(initial, c, t))
  }

  /**
   Applying the cached operators of any number of blocks in sequence gives the final state and every
   output of one step-by-step propagation over all their tokens.
   */
  lemma {:induction false} ChainMatchesPropagation(initial: Tensor3, blocks: seq<Coefficients>)
    requires Layer(blocks, initial.d0) && initial.d2 == blocks[0].keys.d2
    ensures var c := JoinAll(blocks, initial.d0);
      ApplyAll(initial, blocks) == (StateAfter(initial, c, c.keys.d0), Outputs(initial, c))
  {
    var n := |blocks| - 1;
    if n == 0 {
      BlockMatches(initial, blocks[0]);
    } else {
      ChainMatchesPropagation(initial, blocks[..n]);
      BlockContinues(initial, JoinAll(blocks[..n], initial.d0), blocks[n]);
    }
  }

  lemma BlockContinues(initial: Tensor3, a: Coefficients, b: Coefficients)
    requires Agree(a, initial.d0) && Agree(b, initial.d0) && SameLayer(a, b) && initial.d2 == a.keys.d2
    ensures var c, next := Join(a, b, initial.d0), ApplyBlock(StateAfter(initial, a, a.keys.d0), b);
      next.0 == StateAfter(initial, c, c.keys.d0) && Outputs(initial, a) + next.1 == Outputs(initial, c)
  {
    BlockMatches(StateAfter(initial, a, a.keys.d0), b);
    StatesContinue(initial, a, b);
    AllOutputsContinue(initial, a, b);
  }

  lemma BlockMatches(initial: Tensor3, c: Coefficients)
    requires Agree(c, initial.d0) && initial.d2 == c.keys.d2
    ensures ApplyBlock(initial, c) == (StateAfter(initial, c, c.keys.d0), Outputs(initial, c))
  {
    ApplyMatchesPropagation(initial, c);
  }

  lemma AllOutputsContinue(initial: Tensor3, a: Coefficients, b: Coefficients)
    requires Agree(a, initial.d0) && Agree(b, initial.d0) && SameLayer(a, b) && initial.d2 == a.keys.d2
    ensures Outputs(initial, Join(a, b, initial.d0)) == Outputs(initial, a) +
      Outputs(StateAfter(initial, a, a.keys.d0), b)
  {
    var all, parts := Outputs(initial, Join(a, b, initial.d0)),
      Outputs(initial, a) + Outputs(StateAfter(initial, a, a.keys.d0), b);
    forall t | 0 <= t < |all| ensures all[t] == parts[t] {
      OutputsContinue(initial, a, b, t);
    }
  }

  // ---------- the full recurrence ----------

  /** The values `[T,HV,V]` that the full recurrence stores for one row. */
  function RowValues(values: Tensor3, h: nat, v: nat): (vs: seq<real>)
    requires h < values.d1 && v < values.d2
    ensures |vs| == values.d0
  {
    seq(values.d0, t requires 0 <= t < values.d0 => values.at[t][h][v])
  }

  predicate Stores(values: Tensor3, initial: Tensor3, c: Coefficients) {
    values.d0 == c.keys.d0 && values.d1 == initial.d0 && values.d2 == initial.d1
  }

  /** The state of the full recurrence after `n` tokens. */
  function FullStateAfter(initial: Tensor3, c: Coefficients, values: Tensor3, n: nat): (s: Tensor3)
    requires Agree(c, initial.d0) && initial.d2 == c.keys.d2 && Stores(values, initial, c) && n <= c.keys.d0
    ensures SameShape(s, initial)
  {
    Tensor3(initial.d0, initial.d1, initial.d2,
      seq(initial.d0, h requires 0 <= h < initial.d0 =>
        seq(initial.d1, v requires 0 <= v < initial.d1 =>
          FullRunRow(initial.at[h][v], HeadTokens(c, initial.d0, h)[..n], RowValues(values, h, v)[..n]))))
  }

  /** The full recurrence: value head `h` steps with the key of its group and stores its own value. */
  lemma FullStateRecurrence(initial: Tensor3, c: Coefficients, values: Tensor3, t: nat, h: nat, v: nat)
    requires Agree(c, initial.d0) && initial.d2 == c.keys.d2 && Stores(values, initial, c)
    requires t < c.keys.d0 && h < initial.d0 && v < initial.d1
    ensures FullStateAfter(initial, c, values, 0).at[h][v] == initial.at[h][v]
    ensures var g := GroupOf(h, c.keys.d1, initial.d0);
      FullStateAfter(initial, c, values, t + 1).at[h][v] ==
      FullStepRow(FullStateAfter(initial, c, values, t).at[h][v],
        Token(c.keys.at[t][g], c.queries.at[t][g], c.decays.at[t][h], c.betas.at[t][h]), values.at[t][h][v])
  {
    var ts, vs := HeadTokens(c, initial.d0, h), RowValues(values, h, v);
    assert ts[..t + 1][..t] == ts[..t] && ts[..t + 1][t] == ts[t];
    assert vs[..t + 1][..t] == vs[..t] && vs[..t + 1][t] == vs[t];
  }

  function Difference3(x: Tensor3, y: Tensor3): (z: Tensor3)
    requires SameShape(x, y)
    ensures SameShape(z, x)
  {
    Tensor3(x.d0, x.d1, x.d2,
      seq(x.d0, h requires 0 <= h < x.d0 => seq(x.d1, v requires 0 <= v < x.d1 => Sub(x.at[h][v], y.at[h][v]))))
  }

  /** The state delta is the exact difference of two full runs over the same tokens and values. */
  lemma DeltaIsDifference(x: Tensor3, y: Tensor3, c: Coefficients, values: Tensor3, n: nat)
    requires SameShape(x, y) && Agree(c, x.d0) && x.d2 == c.keys.d2 && Stores(values, x, c) && n <= c.keys.d0
    ensures Difference3(FullStateAfter(x, c, values, n), FullStateAfter(y, c, values, n)) ==
      StateAfter(Difference3(x, y), c, n)
  {
    var left := Difference3(FullStateAfter(x, c, values, n), FullStateAfter(y, c, values, n));
    var right := StateAfter(Difference3(x, y), c, n);
    forall h | 0 <= h < x.d0 ensures left.at[h] == right.at[h] {
      forall v | 0 <= v < x.d1 ensures left.at[h][v] == right.at[h][v] {
        DeltaIsDifferenceOfRuns(x.at[h][v], y.at[h][v], HeadTokens(c, x.d0, h)[..n], RowValues(values, h, v)[..n]);
      }
    }
  }

  /** What the full recurrence outputs for value row `v` of head `h` at token `t`. */
  function FullOutput(initial: Tensor3, c: Coefficients, values: Tensor3, t: nat, h: nat, v: nat): real
    requires Agree(c, initial.d0) && initial.d2 == c.keys.d2 && Stores(values, initial, c)
    requires t < c.keys.d0 && h < initial.d0 && v < initial.d1
  {
    Output(FullStateAfter(initial, c, values, t + 1).at[h][v], HeadTokens(c, initial.d0, h)[t].query, c.scale)
  }

  /** The query of the head's group reads the full state right after its token. */
  lemma FullOutputReads(initial: Tensor3, c: Coefficients, values: Tensor3, t: nat, h: nat, v: nat)
    requires Agree(c, initial.d0) && initial.d2 == c.keys.d2 && Stores(values, initial, c)
    requires t < c.keys.d0 && h < initial.d0 && v < initial.d1
    ensures var g := GroupOf(h, c.keys.d1, initial.d0);
      FullOutput(initial, c, values, t, h, v) ==
      Output(FullStateAfter(initial, c, values, t + 1).at[h][v], c.queries.at[t][g], c.scale)
  {
    var g, ts := GroupOf(h, c.keys.d1, initial.d0), HeadTokens(c, initial.d0, h);
    assert ts[t].query == c.queries.at[t][g];
  }

  /**
   So a cached operator applied to the difference of two incoming states gives, at every token, head
   and value row, the exact difference of the outputs of the two full executions.
   */
  lemma CachedOutputIsDifference(x: Tensor3, y: Tensor3, c: Coefficients, values: Tensor3, t: nat, h: nat, v: nat)
    requires SameShape(x, y) && Agree(c, x.d0) && x.d2 == c.keys.d2 && Stores(values, x, c)
    requires t < c.keys.d0 && h < x.d0 && v < x.d1
    ensures |ApplyBlock(Difference3(x, y), c).1| == c.keys.d0
    ensures ApplyBlock(Difference3(x, y), c).1[t] == OutputAt(Difference3(x, y), c, t)
    ensures OutputAt(Difference3(x, y), c, t).at[h][v] ==
      FullOutput(x, c, values, t, h, v) - FullOutput(y, c, values, t, h, v)
  {
    BlockMatches(Difference3(x, y), c);
    OutputIsDifferenceOfRuns(x.at[h][v], y.at[h][v], HeadTokens(c, x.d0, h), RowValues(values, h, v), t, c.scale);
  }
}
